/** Which configurations keep the forwarding graph acyclic: exactly the safe ones. */
module HtmAcyclic {
  import opened Graphs
  import opened HtmConfig
  import opened HtmModel
  import opened HtmChains

  // ---------- Positions: the argument for numeric priorities ----------

  predicate RankedReplies(s: State, r: Request) {
    forall i | 0 <= i < |r.replies| && CarriesData(r.replies[i]) && Live(s, r.replies[i].sender) ::
      AtMost(r.replies[i].prio, s.cores[r.replies[i].sender.core].prio)
  }

  /** A producer stands above its consumers, and no lower than when it sent data. */
  predicate RankInv(cfg: Config, s: State) {
    && (forall c | 0 <= c < |s.cores| ::
          forall t | t in ProducersOf(s.cores[c]) && Live(s, t) ::
            Below(s.cores[c].prio, s.cores[t.core].prio))
    && (forall a | a in s.lines :: RankedReplies(s, s.lines[a]))
    && (!cfg.policy.RequesterStalls? ==>
          forall c | 0 <= c < |s.cores| && s.cores[c].IsConsumer() :: s.cores[c].prio.Num?)
  }

  lemma RankCalm(cfg: Config, s: State, s': State, c: nat)
    requires Provenance(s) && RankInv(cfg, s) && CalmStep(s, s', c)
    ensures RankInv(cfg, s')
  {
  }

  lemma RankRequest(cfg: Config, s: State, s': State, c: nat, a: Addr, exclusive: bool)
    requires RankInv(cfg, s) && RequestStep(s, s', c, a, exclusive)
    ensures RankInv(cfg, s')
  {
  }

  /** A core answers a request: its position does not fall, and what it sends is no higher. */
  lemma RankAnswered(cfg: Config, s: State, s': State, p: nat, k': Core, a: Addr, r': Request, reply: Reply)
    requires RankInv(cfg, s) && p < |s.cores| && a in s.lines
    requires s'.cores == s.cores[p := k'] && s'.lines == s.lines[a := r']
    requires r'.replies == s.lines[a].replies + [reply]
    requires var k := s.cores[p];
             && k'.inTx == k.inTx && k'.uid == k.uid && k'.consumed == k.consumed
             && AtMost(k.prio, k'.prio) && (k.IsConsumer() ==> k'.prio == k.prio)
    requires CarriesData(reply) ==> reply.sender.core == p && AtMost(reply.prio, k'.prio)
    ensures RankInv(cfg, s')
  {
    assert forall c | 0 <= c < |s.cores| :: ProducersOf(s'.cores[c]) == ProducersOf(s.cores[c]);
    assert forall t | Live(s', t) :: Live(s, t);
    forall b | b in s'.lines ensures RankedReplies(s', s'.lines[b]) {
      assert RankedReplies(s, s.lines[b]);
      StayRanked(s, s', s.lines[b]);
    }
  }

  lemma RankRespond(cfg: Config, s: State, s': State, e: Step)
    requires Ranked(cfg) && Provenance(s) && RankInv(cfg, s) && RespondStep(cfg, s, s', e)
    ensures RankInv(cfg, s')
  {
    AnswerShape(cfg, s, e.addr, e.core, e.hasLine, e.writeInFlight);
    var (k', reply) := Answer(cfg, s, e.addr, e.core, e.hasLine, e.writeInFlight).value;
    RankAnswered(cfg, s, s', e.core, k', e.addr, s'.lines[e.addr], reply);
  }

  /** Positions that only rise keep the replies ranked. */
  lemma StayRanked(s: State, s': State, r: Request)
    requires RankedReplies(s, r) && |s'.cores| == |s.cores|
    requires forall t | Live(s', t) :: Live(s, t) && AtMost(s.cores[t.core].prio, s'.cores[t.core].prio)
    ensures RankedReplies(s', r)
  {
  }

  lemma NackersRanked(cfg: Config, s: State, s': State, e: Step)
    requires RankInv(cfg, s) && ConsumeStep(cfg, s, s', e)
    ensures forall t | t in Nackers(s.lines[e.addr].replies) && Live(s, t) ::
              AtMost(MergeReplies(e.order).value.prio, s.cores[t.core].prio)
  {
    var r := s.lines[e.addr];
    MergedIsLowest(e.order);
    NackersInOrder(r.replies, e.order);
    assert RankedReplies(s, r);
  }

  /** A core that takes in data sent from above its own new position. */
  lemma RankTakeIn(cfg: Config, s: State, s': State, c: nat, k': Core, from: set<TxId>)
    requires RankInv(cfg, s) && c < |s.cores| && LinesShrink(s.lines, s'.lines)
    requires s'.cores == s.cores[c := k'] && TakesIn(s.cores[c], k', from)
    requires s.cores[c].consumed.Keys != {} ==> k'.prio == s.cores[c].prio
    requires forall t | t in from && Live(s, t) :: Below(k'.prio, s.cores[t.core].prio) && t.core != c
    requires cfg.policy.RequesterStalls? || k'.prio.Num?
    ensures RankInv(cfg, s')
  {
  }

  /** Data is accepted from above only, and the new position stays below it. */
  lemma ConsumedBelow(cfg: Config, k: Core, a: Addr, m: Merged, from: set<TxId>, suspect: bool)
    requires Ranked(cfg) && m.data.Some? && !IsIllegal(cfg, k, m.prio) && (m.power ==> m.prio.NC?)
    ensures var k' := Consumed(cfg, k, a, m, from, suspect);
            && Below(k'.prio, m.prio) && (cfg.policy.RequesterStalls? || k'.prio.Num? || a in k.consumed)
            && (k.consumed.Keys != {} && k.prio.Num? ==> k'.prio == k.prio)
  {
  }

  lemma NackersElsewhere(cfg: Config, s: State, s': State, e: Step)
    requires Provenance(s) && ConsumeStep(cfg, s, s', e)
    ensures forall t | t in Nackers(s.lines[e.addr].replies) :: t.core != s.lines[e.addr].core
  {
    assert RepliesFromPast(s, s.lines[e.addr]);
  }

  lemma RankConsume(cfg: Config, s: State, s': State, e: Step)
    requires Ranked(cfg) && Provenance(s) && PowerInv(s) && RankInv(cfg, s) && ConsumeStep(cfg, s, s', e)
    ensures RankInv(cfg, s')
  {
    var r, m := s.lines[e.addr], MergeReplies(e.order).value;
    var k, from := s.cores[r.core], Nackers(r.replies);
    var suspect := Suspect(cfg, k, r.core, m);
    NackersRanked(cfg, s, s', e);
    NackersElsewhere(cfg, s, s', e);
    ConsumerNotPower(cfg, s, s', e);
    ConsumedProducers(cfg, k, e.addr, m, from, suspect);
    ConsumedBelow(cfg, k, e.addr, m, from, suspect);
    RankTakeIn(cfg, s, s', r.core, Consumed(cfg, k, e.addr, m, from, suspect), from);
  }

  // ---------- Layers: the argument for the other safe configurations ----------

  /** The transactions that may forward data: producers where consumers never produce,
      power transactions where only those forward. */
  predicate Top(cfg: Config, k: Core) {
    if DepthOne(cfg) then k.IsProducer() else k.power
  }

  predicate TopReplies(cfg: Config, s: State, r: Request) {
    forall i | 0 <= i < |r.replies| && CarriesData(r.replies[i]) ::
      Live(s, r.replies[i].sender) ==> Top(cfg, s.cores[r.replies[i].sender.core])
  }

  predicate Layered(cfg: Config) {
    DepthOne(cfg) || OnlyPowerForwards(cfg) || cfg.fwd.NoFwd?
  }

  predicate LayerInv(cfg: Config, s: State) {
    && (forall c | 0 <= c < |s.cores| ::
          && (forall t | t in ProducersOf(s.cores[c]) && Live(s, t) :: Top(cfg, s.cores[t.core]))
          && (Top(cfg, s.cores[c]) ==> s.cores[c].consumed.Keys == {})
          && (!DepthOne(cfg) && !s.cores[c].power ==> s.cores[c].sentTo == {}))
    && (forall a | a in s.lines :: TopReplies(cfg, s, s.lines[a]))
  }

  lemma LayerCalm(cfg: Config, s: State, s': State, c: nat)
    requires Provenance(s) && LayerInv(cfg, s) && CalmStep(s, s', c)
    ensures LayerInv(cfg, s')
  {
  }

  lemma LayerRequest(cfg: Config, s: State, s': State, c: nat, a: Addr, exclusive: bool)
    requires LayerInv(cfg, s) && RequestStep(s, s', c, a, exclusive)
    ensures LayerInv(cfg, s')
  {
  }

  /** Only a top transaction forwards, and it stays one that consumes nothing. */
  lemma AnswerTop(cfg: Config, s: State, e: Step)
    requires ValidConfig(cfg) && Layered(cfg) && LayerInv(cfg, s) && e.Respond? && Enabled(cfg, s, e)
    ensures var (k', reply) := Answer(cfg, s, e.addr, e.core, e.hasLine, e.writeInFlight).value;
            && (Top(cfg, s.cores[e.core]) ==> Top(cfg, k'))
            && (CarriesData(reply) ==> Top(cfg, k'))
            && (Top(cfg, k') ==> k'.consumed.Keys == {})
            && (!DepthOne(cfg) && !k'.power ==> k'.sentTo == {})
  {
    AnswerShape(cfg, s, e.addr, e.core, e.hasLine, e.writeInFlight);
  }

  lemma LayerRespond(cfg: Config, s: State, s': State, e: Step)
    requires ValidConfig(cfg) && Layered(cfg) && LayerInv(cfg, s) && RespondStep(cfg, s, s', e)
    ensures LayerInv(cfg, s')
  {
    AnswerShape(cfg, s, e.addr, e.core, e.hasLine, e.writeInFlight);
    AnswerTop(cfg, s, e);
    assert forall c | 0 <= c < |s.cores| :: ProducersOf(s'.cores[c]) == ProducersOf(s.cores[c]);
    assert forall t | Live(s', t) :: Live(s, t) && (Top(cfg, s.cores[t.core]) ==> Top(cfg, s'.cores[t.core]));
    forall b | b in s'.lines ensures TopReplies(cfg, s', s'.lines[b]) {
      assert TopReplies(cfg, s, s.lines[b]);
    }
  }

  lemma NackersTop(cfg: Config, s: State, s': State, e: Step)
    requires LayerInv(cfg, s) && ConsumeStep(cfg, s, s', e)
    ensures forall t | t in Nackers(s.lines[e.addr].replies) && Live(s, t) :: Top(cfg, s.cores[t.core])
  {
    var r := s.lines[e.addr];
    MergedIsLowest(e.order);
    NackersInOrder(r.replies, e.order);
    assert TopReplies(cfg, s, r);
  }

  lemma LayerTakeIn(cfg: Config, s: State, s': State, c: nat, k': Core, from: set<TxId>)
    requires LayerInv(cfg, s) && c < |s.cores| && LinesShrink(s.lines, s'.lines)
    requires s'.cores == s.cores[c := k'] && TakesIn(s.cores[c], k', from)
    requires forall t | t in from && Live(s, t) :: Top(cfg, s.cores[t.core])
    requires !Top(cfg, s.cores[c])
    ensures LayerInv(cfg, s')
  {
  }

  lemma LayerConsume(cfg: Config, s: State, s': State, e: Step)
    requires Layered(cfg) && PowerInv(s) && LayerInv(cfg, s) && ConsumeStep(cfg, s, s', e)
    ensures LayerInv(cfg, s')
  {
    var r, m := s.lines[e.addr], MergeReplies(e.order).value;
    var k := s.cores[r.core];
    ConsumedProducers(cfg, k, e.addr, m, Nackers(r.replies), Suspect(cfg, k, r.core, m));
    NackersTop(cfg, s, s', e);
    ConsumerNotPower(cfg, s, s', e);
    LayerTakeIn(cfg, s, s', r.core, s'.cores[r.core], Nackers(r.replies));
  }

  // ---------- Safe configurations have no cycle in any run ----------

  predicate SafeInv(cfg: Config, s: State) {
    && ChainInv(s)
    && (Ranked(cfg) ==> RankInv(cfg, s))
    && (Layered(cfg) ==> LayerInv(cfg, s))
  }

  lemma SafeCalm(cfg: Config, s: State, s': State, c: nat)
    requires SafeInv(cfg, s) && CalmStep(s, s', c) && ChainInv(s')
    ensures SafeInv(cfg, s')
  {
    if Ranked(cfg) { RankCalm(cfg, s, s', c); }
    if Layered(cfg) { LayerCalm(cfg, s, s', c); }
  }

  lemma SafeRequest(cfg: Config, s: State, s': State, c: nat, a: Addr, exclusive: bool)
    requires SafeInv(cfg, s) && RequestStep(s, s', c, a, exclusive) && ChainInv(s')
    ensures SafeInv(cfg, s')
  {
    if Ranked(cfg) { RankRequest(cfg, s, s', c, a, exclusive); }
    if Layered(cfg) { LayerRequest(cfg, s, s', c, a, exclusive); }
  }

  lemma SafeRespond(cfg: Config, s: State, e: Step)
    requires ValidConfig(cfg) && SafeInv(cfg, s) && e.Respond? && Enabled(cfg, s, e) && ChainInv(Next(cfg, s, e))
    ensures SafeInv(cfg, Next(cfg, s, e))
  {
    if Ranked(cfg) { RankRespond(cfg, s, Next(cfg, s, e), e); }
    if Layered(cfg) { LayerRespond(cfg, s, Next(cfg, s, e), e); }
  }

  lemma SafeDeliver(cfg: Config, s: State, e: Step)
    requires SafeInv(cfg, s) && e.Deliver? && Enabled(cfg, s, e) && ChainInv(Next(cfg, s, e))
    ensures SafeInv(cfg, Next(cfg, s, e))
  {
    var s', r := Next(cfg, s, e), s.lines[e.addr];
    DeliverShape(cfg, s, e);
    if RequestStep(s, s', r.core, e.addr, r.exclusive) {
      SafeRequest(cfg, s, s', r.core, e.addr, r.exclusive);
    } else if ConsumeStep(cfg, s, s', e) {
      if Ranked(cfg) { RankConsume(cfg, s, s', e); }
      if Layered(cfg) { LayerConsume(cfg, s, s', e); }
    } else {
      SafeCalm(cfg, s, s', r.core);
    }
  }

  lemma SafeSameCores(cfg: Config, s: State, s': State)
    requires SafeInv(cfg, s) && ChainInv(s') && s'.cores == s.cores && s'.lines == s.lines
    ensures SafeInv(cfg, s')
  {
    forall a | a in s.lines
      ensures RankedReplies(s, s.lines[a]) ==> RankedReplies(s', s.lines[a])
      ensures TopReplies(cfg, s, s.lines[a]) ==> TopReplies(cfg, s', s.lines[a])
    {
    }
  }

  lemma SafeLocal(cfg: Config, s: State, e: Step)
    requires SafeInv(cfg, s) && Enabled(cfg, s, e) && ChainInv(Next(cfg, s, e))
    requires !e.Issue? && !e.Respond? && !e.Deliver? && !e.Store?
    ensures SafeInv(cfg, Next(cfg, s, e))
  {
    CalmLocal(cfg, s, e);
    SafeCalm(cfg, s, Next(cfg, s, e), e.core);
  }

  lemma SafeStep(cfg: Config, s: State, e: Step)
    requires ValidConfig(cfg) && SafeInv(cfg, s) && Enabled(cfg, s, e) && ChainInv(Next(cfg, s, e))
    ensures SafeInv(cfg, Next(cfg, s, e))
  {
    match e
    case Issue(c, a, exclusive) => SafeRequest(cfg, s, Next(cfg, s, e), c, a, exclusive);
    case Respond(_, _, _, _) => SafeRespond(cfg, s, e);
    case Deliver(_, _, _) => SafeDeliver(cfg, s, e);
    case Store(_, _, _) => SafeSameCores(cfg, s, Next(cfg, s, e));
    case _ => SafeLocal(cfg, s, e);
  }

  lemma {:induction false} SafeInvAlways(cfg: Config, n: nat, steps: seq<Step>)
    requires ValidConfig(cfg) && Run(cfg, n, steps).Some?
    ensures SafeInv(cfg, Run(cfg, n, steps).value)
  {
    ChainInvAlways(cfg, n, steps);
    if steps != [] {
      var before := steps[..|steps| - 1];
      SafeInvAlways(cfg, n, before);
      SafeStep(cfg, Run(cfg, n, before).value, steps[|steps| - 1]);
    }
  }

  /** Along a chain of dependencies the position strictly rises. */
  lemma {:induction false} PositionRises(cfg: Config, s: State, p: seq<nat>, i: nat)
    requires RankInv(cfg, s) && IsPath(Dependencies(s), p) && 0 < i < |p|
    ensures p[0] < |s.cores| && p[i] < |s.cores| && Below(s.cores[p[0]].prio, s.cores[p[i]].prio)
  {
    assert EdgeAt(Dependencies(s), p, i - 1);
    assert Live(s, TxId(p[i], s.cores[p[i]].uid));
    if i > 1 {
      PositionRises(cfg, s, p, i - 1);
    }
  }

  lemma LayersEnd(cfg: Config, s: State, p: seq<nat>)
    requires LayerInv(cfg, s) && IsPath(Dependencies(s), p) && |p| >= 2
    ensures p[0] != p[|p| - 1]
  {
    var c, d := p[|p| - 2], p[|p| - 1];
    assert EdgeAt(Dependencies(s), p, |p| - 2);
    assert Live(s, TxId(d, s.cores[d].uid)) && Top(cfg, s.cores[d]);
    assert EdgeAt(Dependencies(s), p, 0);
    assert ProducersOf(s.cores[p[0]]) != {};
  }

  lemma SafeIsAcyclic(cfg: Config, s: State)
    requires SafeConfig(cfg) && SafeInv(cfg, s)
    ensures Acyclic(Dependencies(s))
  {
    forall p: seq<nat> ensures !IsCycle(Dependencies(s), p) {
      if IsPath(Dependencies(s), p) && |p| >= 2 {
        if Ranked(cfg) {
          PositionRises(cfg, s, p, |p| - 1);
        } else {
          LayersEnd(cfg, s, p);
        }
      }
    }
  }
}
