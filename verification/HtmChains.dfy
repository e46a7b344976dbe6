/** The dependencies that forwarding creates between transactions, and the invariants
    that keep them free of cycles. */
module HtmChains {
  import opened Basics
  import opened HtmConfig
  import opened HtmModel
  import HtmSerial

  /** The transactions whose speculative data core `k` holds unvalidated. */
  function ProducersOf(k: Core): set<TxId> {
    set a, t | a in k.consumed && t in k.consumed[a].producers :: t
  }

  /** The transaction of core `c` waits for the one running on core `p`. */
  ghost predicate DependsOn(s: State, c: nat, p: nat) {
    c < |s.cores| && p < |s.cores| && s.cores[p].inTx && TxId(p, s.cores[p].uid) in ProducersOf(s.cores[c])
  }

  ghost function Dependencies(s: State): (nat, nat) -> bool {
    (c: nat, p: nat) => DependsOn(s, c, p)
  }

  // ---------- Where nacks and consumed data come from ----------

  predicate Past(s: State, t: TxId) {
    t.core < |s.cores| && t.uid <= s.cores[t.core].uid
  }

  predicate RepliesFromPast(s: State, r: Request) {
    && r.core !in r.pending
    && forall i | 0 <= i < |r.replies| && r.replies[i].Nack? ::
         Past(s, r.replies[i].sender) && r.replies[i].sender.core != r.core
  }

  predicate Provenance(s: State) {
    && (forall c | 0 <= c < |s.cores| ::
          forall t | t in ProducersOf(s.cores[c]) :: Past(s, t) && t.core != c)
    && (forall a | a in s.lines :: RepliesFromPast(s, s.lines[a]))
  }

  lemma NackersInOrder(rs: seq<Reply>, order: seq<Reply>)
    requires multiset(order) == multiset(rs)
    ensures forall t | t in Nackers(rs) ::
              exists i :: 0 <= i < |rs| && rs[i].Nack? && rs[i].sender == t && rs[i] in order
  {
    forall t | t in Nackers(rs)
      ensures exists i :: 0 <= i < |rs| && rs[i].Nack? && rs[i].sender == t && rs[i] in order
    {
      var i :| 0 <= i < |rs| && rs[i].Nack? && rs[i].sender == t;
      HtmSerial.SameMembers(rs, order, i);
    }
  }

  lemma SomeNacker(rs: seq<Reply>, order: seq<Reply>)
    requires multiset(order) == multiset(rs) && MergeReplies(order).Some?
    ensures Nackers(rs) != {}
  {
    HtmSerial.NoNackMerged(order);
    var i :| 0 <= i < |order| && order[i].Nack?;
    HtmSerial.SameMembers(order, rs, i);
    assert order[i].sender in Nackers(rs);
  }

  /** The merged nack is no higher than any nack, and carries data only if all do. */
  lemma MergedIsLowest(rs: seq<Reply>)
    requires MergeReplies(rs).Some?
    ensures var m := MergeReplies(rs).value;
            forall n | n in rs && n.Nack? :: AtMost(m.prio, n.prio) && (m.data.Some? ==> n.data.Some?)
  {
    var init, last := rs[..|rs| - 1], rs[|rs| - 1];
    assert forall n | n in rs :: n in init || n == last;
    if MergeReplies(init).Some? {
      MergedIsLowest(init);
    } else {
      HtmSerial.NoNackMerged(init);
    }
  }

  // ---------- The shapes of steps, as far as chains are concerned ----------

  /** From `k` to `k'` a core gains no producer, never returns to an earlier transaction,
      and keeps its position, age, mode and consumers as long as its transaction lasts. */
  predicate Calm(k: Core, k': Core) {
    && k.uid <= k'.uid
    && ProducersOf(k') <= ProducersOf(k)
    && (k'.inTx && k'.uid == k.uid ==>
          k.inTx && k'.prio == k.prio && k'.power == k.power && k'.sentTo == k.sentTo
          && k'.stamp == k.stamp && (k.cycleFlag ==> k'.cycleFlag)
          && k'.consumed.Keys <= k.consumed.Keys && k'.everConsumed == k.everConsumed && (k.doomed ==> k'.doomed))
    && (!(k'.inTx && k'.uid == k.uid) ==>
          k'.consumed == map[] && k'.everConsumed == {} && k'.sentTo == {} && k'.prio.NC?)
  }

  predicate LinesShrink(lines: map<Addr, Request>, lines': map<Addr, Request>) {
    forall a | a in lines' :: a in lines && lines'[a] == lines[a]
  }

  ghost predicate CalmStep(s: State, s': State, c: nat) {
    && c < |s.cores| && |s'.cores| == |s.cores|
    && s'.cores == s.cores[c := s'.cores[c]]
    && LinesShrink(s.lines, s'.lines)
    && Calm(s.cores[c], s'.cores[c])
  }

  /** The requester on line `a` takes in forwarded data. */
  predicate Consumes(cfg: Config, s: State, a: Addr, m: Merged) {
    && a in s.lines && s.lines[a].core < |s.cores|
    && var k := s.cores[s.lines[a].core];
    && s.lines[a].trans && k.inTx && k.uid == s.lines[a].uid && !k.doomed
    && !IsIllegal(cfg, k, m.prio) && m.data.Some? && ShouldAccept(cfg, k)
  }

  ghost predicate ConsumeStep(cfg: Config, s: State, s': State, e: Step) {
    && e.Deliver? && Enabled(cfg, s, e) && MergeReplies(e.order).Some?
    && var a, m := e.addr, MergeReplies(e.order).value;
    && Consumes(cfg, s, a, m)
    && var r := s.lines[a];
    && s' == s.(lines := s.lines - {a},
                cores := s.cores[r.core := Consumed(cfg, s.cores[r.core], a, m, Nackers(r.replies),
                                                    Suspect(cfg, s.cores[r.core], r.core, m))])
  }

  ghost predicate RequestStep(s: State, s': State, c: nat, a: Addr, exclusive: bool) {
    c < |s.cores| && s' == s.(lines := s.lines[a := NewRequest(s, c, exclusive)])
  }

  lemma AccessIsCalm(s: State, k: Core, a: Addr, v: Value)
    requires k.inTx
    ensures Calm(k, ReadCore(s, k, a)) && Calm(k, WriteCore(k, a, v)) && Calm(k, k.(doomed := true))
  {
  }

  lemma EvictionIsCalm(k: Core, a: Addr)
    requires HtmSerial.WellFormed(k)
    ensures Calm(k, EvictCore(k, a))
  {
  }

  lemma CalmAccess(cfg: Config, s: State, e: Step)
    requires HtmSerial.Inv(s) && Enabled(cfg, s, e) && (e.Read? || e.Write? || e.Evict? || e.Doom?)
    ensures CalmStep(s, Next(cfg, s, e), e.core)
  {
    var k := s.cores[e.core];
    if e.Evict? {
      EvictionIsCalm(k, e.addr);
    } else {
      AccessIsCalm(s, k, if e.Doom? then 0 else e.addr, if e.Write? then e.value else 0);
    }
  }

  lemma CalmBoundary(cfg: Config, s: State, e: Step)
    requires HtmSerial.Inv(s) && Enabled(cfg, s, e) && (e.Begin? || e.Commit? || e.Abort?)
    ensures CalmStep(s, Next(cfg, s, e), e.core)
  {
  }

  lemma DeliverShape(cfg: Config, s: State, e: Step)
    requires HtmSerial.Inv(s) && e.Deliver? && Enabled(cfg, s, e)
    ensures var s', r := Next(cfg, s, e), s.lines[e.addr];
            || RequestStep(s, s', r.core, e.addr, r.exclusive)
            || ConsumeStep(cfg, s, s', e)
            || CalmStep(s, s', r.core)
  {
    var s', r := Next(cfg, s, e), s.lines[e.addr];
    var k := s.cores[r.core];
    assert s.cores[r.core := k] == s.cores;
    if MergeReplies(e.order).None? {
      assert Calm(k, Granted(s, k, e.addr, r));
    } else {
      assert HtmSerial.Running(k) ==>
          Calm(k, Refused(cfg, k, e.addr, Suspect(cfg, k, r.core, MergeReplies(e.order).value)));
    }
  }

  // ---------- Provenance is kept by every step ----------

  lemma ProvenanceCalm(s: State, s': State, c: nat)
    requires Provenance(s) && CalmStep(s, s', c)
    ensures Provenance(s')
  {
  }

  lemma ProvenanceRequest(s: State, s': State, c: nat, a: Addr, exclusive: bool)
    requires Provenance(s) && RequestStep(s, s', c, a, exclusive)
    ensures Provenance(s')
  {
  }

  /** An answer changes at most the position, the abort flag, the permissions and the
      consumers of the core that gives it. */
  lemma AnswerShape(cfg: Config, s: State, a: Addr, p: nat, hasLine: bool, writeInFlight: bool)
    requires a in s.lines && p < |s.cores| && Answer(cfg, s, a, p, hasLine, writeInFlight).Some?
    ensures var (k', reply) := Answer(cfg, s, a, p, hasLine, writeInFlight).value;
            var k := s.cores[p];
            && k'.inTx == k.inTx && k'.uid == k.uid && k'.power == k.power && k'.stamp == k.stamp
            && k'.consumed == k.consumed && k'.everConsumed == k.everConsumed
            && (reply.Nack? ==> k.inTx && reply.sender == TxId(p, k.uid) && reply.prio == SentPrio(cfg, k'))
            && (reply.Nack? && reply.data.Some? ==>
                  && BecomeProducer(cfg, k, a, s.lines[a], writeInFlight).Forward?
                  && CanProduce(cfg, k) && ShouldNack(cfg, k, s.lines[a])
                  && k'.prio == PrioAfterSend(cfg, k, s.lines[a].prio)
                  && k'.sentTo == k.sentTo + {s.lines[a].core})
            && (!(reply.Nack? && reply.data.Some?) ==> k'.prio == k.prio && k'.sentTo == k.sentTo)
  {
  }

  ghost predicate RespondStep(cfg: Config, s: State, s': State, e: Step) {
    e.Respond? && Enabled(cfg, s, e) && s' == Next(cfg, s, e)
  }

  lemma ProvenanceRespond(cfg: Config, s: State, s': State, e: Step)
    requires Provenance(s) && RespondStep(cfg, s, s', e)
    ensures Provenance(s')
  {
    AnswerShape(cfg, s, e.addr, e.core, e.hasLine, e.writeInFlight);
    assert forall t | Past(s, t) :: Past(s', t);
    forall b | b in s'.lines ensures RepliesFromPast(s', s'.lines[b]) {
      assert RepliesFromPast(s, s.lines[b]);
    }
    forall c | 0 <= c < |s'.cores|
      ensures forall t | t in ProducersOf(s'.cores[c]) :: Past(s', t) && t.core != c
    {
      assert ProducersOf(s'.cores[c]) == ProducersOf(s.cores[c]);
    }
  }

  /** From `k` to `k'` a running transaction adds the producers `from`, keeping its
      position if it already consumed. */
  predicate TakesIn(k: Core, k': Core, from: set<TxId>) {
    && k'.inTx && k.inTx && k'.uid == k.uid && k'.power == k.power && k'.sentTo == k.sentTo
    && ProducersOf(k') <= ProducersOf(k) + from
    && AtMost(k.prio, k'.prio)
  }

  lemma ConsumedProducers(cfg: Config, k: Core, a: Addr, m: Merged, from: set<TxId>, suspect: bool)
    requires m.data.Some? && k.inTx
    ensures TakesIn(k, Consumed(cfg, k, a, m, from, suspect), from)
  {
  }

  lemma ProvenanceConsume(cfg: Config, s: State, s': State, e: Step)
    requires Provenance(s) && ConsumeStep(cfg, s, s', e)
    ensures Provenance(s')
  {
    var r, m := s.lines[e.addr], MergeReplies(e.order).value;
    ConsumedProducers(cfg, s.cores[r.core], e.addr, m, Nackers(r.replies), Suspect(cfg, s.cores[r.core], r.core, m));
    assert RepliesFromPast(s, r);
    assert forall t | Past(s, t) :: Past(s', t);
    forall b | b in s'.lines ensures RepliesFromPast(s', s'.lines[b]) {
      assert RepliesFromPast(s, s.lines[b]);
    }
  }

  // ---------- Power transactions stay outside the chains ----------

  predicate CarriesData(n: Reply) {
    n.Nack? && n.data.Some?
  }

  predicate PowerRequest(s: State, r: Request) {
    && (r.trans && Live(s, TxId(r.core, r.uid)) ==> r.power == s.cores[r.core].power)
    && Past(s, TxId(r.core, r.uid))
    && forall i | 0 <= i < |r.replies| ::
         && (CarriesData(r.replies[i]) ==> !r.power)
         && (r.replies[i].Nack? && r.replies[i].power ==> r.replies[i].prio.NC?)
  }

  /** A power transaction has no position and has consumed nothing. */
  predicate PowerInv(s: State) {
    && (forall c | 0 <= c < |s.cores| && s.cores[c].power ::
          s.cores[c].consumed.Keys == {} && s.cores[c].everConsumed == {} && s.cores[c].prio.NC?)
    && (forall a | a in s.lines :: PowerRequest(s, s.lines[a]))
  }

  lemma PowerCalm(s: State, s': State, c: nat)
    requires HtmSerial.Inv(s) && PowerInv(s) && CalmStep(s, s', c)
    ensures PowerInv(s')
  {
    forall a | a in s'.lines ensures PowerRequest(s', s'.lines[a]) {
      assert PowerRequest(s, s.lines[a]);
    }
  }

  lemma PowerRequests(s: State, s': State, c: nat, a: Addr, exclusive: bool)
    requires PowerInv(s) && RequestStep(s, s', c, a, exclusive)
    ensures PowerInv(s')
  {
  }

  lemma PowerAnswered(s: State, s': State, p: nat, k': Core, a: Addr, r': Request, reply: Reply)
    requires PowerInv(s) && p < |s.cores| && a in s.lines
    requires s'.cores == s.cores[p := k'] && s'.lines == s.lines[a := r']
    requires r' == s.lines[a].(pending := r'.pending, replies := s.lines[a].replies + [reply])
    requires var k := s.cores[p];
             k'.inTx == k.inTx && k'.uid == k.uid && k'.power == k.power && k'.consumed == k.consumed
             && k'.everConsumed == k.everConsumed && (k.power ==> k'.prio.NC?)
    requires (CarriesData(reply) ==> !r'.power) && (reply.Nack? && reply.power ==> reply.prio.NC?)
    ensures PowerInv(s')
  {
  }

  lemma PowerRespond(cfg: Config, s: State, s': State, e: Step)
    requires PowerInv(s) && RespondStep(cfg, s, s', e)
    ensures PowerInv(s')
  {
    AnswerShape(cfg, s, e.addr, e.core, e.hasLine, e.writeInFlight);
    var (k', reply) := Answer(cfg, s, e.addr, e.core, e.hasLine, e.writeInFlight).value;
    PowerAnswered(s, s', e.core, k', e.addr, s'.lines[e.addr], reply);
  }

  /** The requester is no power transaction, and data at a position did not come from
      one. */
  lemma ConsumerNotPower(cfg: Config, s: State, s': State, e: Step)
    requires PowerInv(s) && ConsumeStep(cfg, s, s', e)
    ensures !s.cores[s.lines[e.addr].core].power
    ensures MergeReplies(e.order).value.power ==> MergeReplies(e.order).value.prio.NC?
  {
    var r := s.lines[e.addr];
    assert PowerRequest(s, r);
    MergedIsLowest(e.order);
    NackersInOrder(r.replies, e.order);
    SomeNacker(r.replies, e.order);
    if MergeReplies(e.order).value.power {
      MergedPower(e.order);
      var n :| n in e.order && n.Nack? && n.power;
      assert n in multiset(r.replies);
    }
  }

  lemma MergedPower(rs: seq<Reply>)
    requires MergeReplies(rs).Some? && MergeReplies(rs).value.power
    ensures exists n :: n in rs && n.Nack? && n.power
  {
  }

  lemma PowerConsume(cfg: Config, s: State, s': State, e: Step)
    requires PowerInv(s) && ConsumeStep(cfg, s, s', e)
    ensures PowerInv(s')
  {
    ConsumerNotPower(cfg, s, s', e);
    forall b | b in s'.lines ensures PowerRequest(s', s'.lines[b]) {
      assert PowerRequest(s, s.lines[b]);
    }
  }

  // ---------- Every reachable state ----------

  predicate ChainInv(s: State) {
    HtmSerial.Inv(s) && Provenance(s) && PowerInv(s)
  }

  lemma ChainStep(cfg: Config, s: State, e: Step)
    requires ChainInv(s) && Enabled(cfg, s, e)
    ensures Provenance(Next(cfg, s, e)) && PowerInv(Next(cfg, s, e))
  {
    match e
    case Issue(_, _, _) => ChainIssue(cfg, s, e);
    case Respond(_, _, _, _) =>
      ProvenanceRespond(cfg, s, Next(cfg, s, e), e);
      PowerRespond(cfg, s, Next(cfg, s, e), e);
    case Deliver(_, _, _) => ChainDeliver(cfg, s, e);
    case Store(_, _, _) => ChainSameCores(s, Next(cfg, s, e));
    case _ => ChainLocal(cfg, s, e);
  }

  lemma ChainIssue(cfg: Config, s: State, e: Step)
    requires ChainInv(s) && e.Issue? && Enabled(cfg, s, e)
    ensures Provenance(Next(cfg, s, e)) && PowerInv(Next(cfg, s, e))
  {
    ProvenanceRequest(s, Next(cfg, s, e), e.core, e.addr, e.exclusive);
    PowerRequests(s, Next(cfg, s, e), e.core, e.addr, e.exclusive);
  }

  lemma ChainSameCores(s: State, s': State)
    requires Provenance(s) && PowerInv(s) && s'.cores == s.cores && s'.lines == s.lines
    ensures Provenance(s') && PowerInv(s')
  {
    forall a | a in s'.lines ensures RepliesFromPast(s', s'.lines[a]) && PowerRequest(s', s'.lines[a]) {
      assert RepliesFromPast(s, s.lines[a]) && PowerRequest(s, s.lines[a]);
    }
  }

  lemma ChainDeliver(cfg: Config, s: State, e: Step)
    requires ChainInv(s) && e.Deliver? && Enabled(cfg, s, e)
    ensures Provenance(Next(cfg, s, e)) && PowerInv(Next(cfg, s, e))
  {
    var s', a, r := Next(cfg, s, e), e.addr, s.lines[e.addr];
    DeliverShape(cfg, s, e);
    if RequestStep(s, s', r.core, a, r.exclusive) {
      ProvenanceRequest(s, s', r.core, a, r.exclusive);
      PowerRequests(s, s', r.core, a, r.exclusive);
    } else if ConsumeStep(cfg, s, s', e) {
      ProvenanceConsume(cfg, s, s', e);
      PowerConsume(cfg, s, s', e);
    } else {
      ProvenanceCalm(s, s', r.core);
      PowerCalm(s, s', r.core);
    }
  }

  lemma ChainLocal(cfg: Config, s: State, e: Step)
    requires ChainInv(s) && Enabled(cfg, s, e)
    requires !e.Issue? && !e.Respond? && !e.Deliver? && !e.Store?
    ensures Provenance(Next(cfg, s, e)) && PowerInv(Next(cfg, s, e))
  {
    CalmLocal(cfg, s, e);
    ProvenanceCalm(s, Next(cfg, s, e), e.core);
    PowerCalm(s, Next(cfg, s, e), e.core);
  }

  lemma CalmLocal(cfg: Config, s: State, e: Step)
    requires HtmSerial.Inv(s) && Enabled(cfg, s, e)
    requires !e.Issue? && !e.Respond? && !e.Deliver? && !e.Store?
    ensures CalmStep(s, Next(cfg, s, e), e.core)
  {
    if e.Read? || e.Write? || e.Evict? || e.Doom? {
      CalmAccess(cfg, s, e);
    } else {
      CalmBoundary(cfg, s, e);
    }
  }

  lemma {:induction false} ChainInvAlways(cfg: Config, n: nat, steps: seq<Step>)
    requires Run(cfg, n, steps).Some?
    ensures ChainInv(Run(cfg, n, steps).value)
  {
    HtmSerial.InvAlways(cfg, n, steps);
    if steps != [] {
      var before := steps[..|steps| - 1];
      ChainInvAlways(cfg, n, before);
      ChainStep(cfg, Run(cfg, n, before).value, steps[|steps| - 1]);
    }
  }

  /** No power transaction has ever consumed speculative data, validated or not. */
  lemma {:induction false} PowerNeverConsumes(cfg: Config, n: nat, steps: seq<Step>, c: nat)
    requires Run(cfg, n, steps).Some? && c < n
    ensures var s := Run(cfg, n, steps).value;
            |s.cores| == n && (s.cores[c].power ==> !s.cores[c].IsConsumer() && s.cores[c].everConsumed == {})
  {
    ChainInvAlways(cfg, n, steps);
    CoreCount(cfg, n, steps);
  }

  lemma CoreCount(cfg: Config, n: nat, steps: seq<Step>)
    requires Run(cfg, n, steps).Some?
    ensures |Run(cfg, n, steps).value.cores| == n
  {
  }
}
