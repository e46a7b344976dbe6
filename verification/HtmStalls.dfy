/** Under the stalling policy a transaction that has nacked an older one and is nacked by
    an older one aborts. If only owners forward, and a consumer forwards to nobody or to the
    one core it has forwarded to before, this leaves no cycle of transactions that are not
    doomed. */
module HtmStalls {
  import opened Basics
  import opened Graphs
  import opened HtmConfig
  import opened HtmModel
  import opened HtmChains
  import HtmSerial

  /** Requests stall, only written blocks are forwarded, and consumers forward by position
      to one core at most. */
  predicate Sedate(cfg: Config) {
    && ValidConfig(cfg) && cfg.policy.RequesterStalls? && cfg.allowed.OnlyWritten? && !cfg.fwd.Naive?
    && (cfg.numeric ==> !TwoConsumers(cfg))
  }

  // ---------- No power transactions ----------

  predicate Powerless(s: State) {
    forall c | 0 <= c < |s.cores| :: !s.cores[c].power
  }

  lemma PowerlessDelivery(cfg: Config, s: State, e: Step)
    requires Powerless(s) && e.Deliver? && Enabled(cfg, s, e)
    ensures Powerless(Next(cfg, s, e))
  {
  }

  lemma PowerlessStep(cfg: Config, s: State, e: Step)
    requires !cfg.power && Powerless(s) && Enabled(cfg, s, e)
    ensures Powerless(Next(cfg, s, e))
  {
    match e
    case Respond(a, p, hasLine, writeInFlight) => AnswerShape(cfg, s, a, p, hasLine, writeInFlight);
    case Deliver(_, _, _) => PowerlessDelivery(cfg, s, e);
    case _ =>
  }

  lemma {:induction false} PowerlessAlways(cfg: Config, n: nat, steps: seq<Step>)
    requires !cfg.power && Run(cfg, n, steps).Some?
    ensures Powerless(Run(cfg, n, steps).value)
  {
    if steps != [] {
      var before := steps[..|steps| - 1];
      PowerlessAlways(cfg, n, before);
      PowerlessStep(cfg, Run(cfg, n, before).value, steps[|steps| - 1]);
    }
  }

  // ---------- Only the owner of a block offers it ----------

  /** A running transaction has not accessed under permission what it waits to validate. */
  predicate Apart(k: Core) {
    HtmSerial.Running(k) ==> k.granted !! k.consumed.Keys
  }

  /** The requester cannot read the line and has not. */
  predicate Stranger(k: Core, a: Addr) {
    a !in k.readable && (HtmSerial.Running(k) ==> a !in k.granted)
  }

  predicate OneOffer(s: State, r: Request, a: Addr) {
    && r.core < |s.cores|
    && (forall i | 0 <= i < |r.replies| && r.replies[i].Nack? :: r.replies[i].sender.core !in r.pending)
    && (forall i, j | 0 <= i < j < |r.replies| :: !(CarriesData(r.replies[i]) && CarriesData(r.replies[j])))
    && (forall i | 0 <= i < |r.replies| && CarriesData(r.replies[i]) :: Stranger(s.cores[r.core], a))
    && (forall i, d | 0 <= i < |r.replies| && CarriesData(r.replies[i]) && 0 <= d < |s.cores| && d != r.replies[i].sender.core ::
          a !in s.cores[d].writable)
  }

  predicate OfferInv(s: State) {
    && (forall c | 0 <= c < |s.cores| :: Apart(s.cores[c]))
    && (forall a | a in s.lines :: OneOffer(s, s.lines[a], a))
  }

  /** From `k` to `k'` a core gains nothing on block `b`. */
  predicate GainsNothing(k: Core, k': Core, b: Addr) {
    (b in k'.writable ==> b in k.writable) && (Stranger(k, b) ==> Stranger(k', b))
  }

  /** Nobody gains anything on a line that stays blocked. */
  ghost predicate NoNewAccess(s: State, s': State) {
    && |s'.cores| == |s.cores|
    && forall d, b | 0 <= d < |s.cores| && b in s'.lines :: GainsNothing(s.cores[d], s'.cores[d], b)
  }

  lemma GrantedAccess(s: State, k: Core, a: Addr, r: Request, b: Addr)
    requires b != a
    ensures GainsNothing(k, Granted(s, k, a, r), b)
  {
  }

  lemma NackedAccess(cfg: Config, k: Core, a: Addr, m: Merged, from: set<TxId>, suspect: bool, b: Addr)
    requires HtmSerial.Running(k)
    ensures GainsNothing(k, Refused(cfg, k, a, suspect), b)
    ensures m.data.Some? ==> GainsNothing(k, Consumed(cfg, k, a, m, from, suspect), b)
  {
  }

  lemma DeliveryAccess(cfg: Config, s: State, e: Step, b: Addr)
    requires e.Deliver? && Enabled(cfg, s, e) && b in Next(cfg, s, e).lines
    ensures var c := s.lines[e.addr].core; GainsNothing(s.cores[c], Next(cfg, s, e).cores[c], b)
  {
    var r := s.lines[e.addr];
    var k := s.cores[r.core];
    if MergeReplies(e.order).None? {
      GrantedAccess(s, k, e.addr, r, b);
    } else if HtmSerial.Running(k) {
      var m := MergeReplies(e.order).value;
      NackedAccess(cfg, k, e.addr, m, Nackers(r.replies), Suspect(cfg, k, r.core, m), b);
    }
  }

  lemma LocalAccess(cfg: Config, s: State, e: Step, b: Addr)
    requires HtmSerial.Inv(s) && Enabled(cfg, s, e) && !e.Issue? && !e.Respond? && !e.Deliver? && !e.Store?
    ensures GainsNothing(s.cores[e.core], Next(cfg, s, e).cores[e.core], b)
  {
    assert HtmSerial.WellFormed(s.cores[e.core]);
  }

  lemma AnswerAccess(cfg: Config, s: State, e: Step, b: Addr)
    requires HtmSerial.Inv(s) && e.Respond? && Enabled(cfg, s, e)
    ensures GainsNothing(s.cores[e.core], Next(cfg, s, e).cores[e.core], b)
  {
    assert HtmSerial.WellFormed(s.cores[e.core]) && HtmSerial.WritesCovered(s.cores[e.core]);
    HtmSerial.AnswerConcedes(cfg, s, e.addr, e.core, e.hasLine, e.writeInFlight);
  }

  /** Only core `c` changes. */
  lemma OneCoreAccess(s: State, s': State, c: nat)
    requires c < |s.cores| == |s'.cores| && s'.cores == s.cores[c := s'.cores[c]]
    requires forall b | b in s'.lines :: GainsNothing(s.cores[c], s'.cores[c], b)
    ensures NoNewAccess(s, s')
  {
  }

  lemma OfferLines(s: State, s': State)
    requires OfferInv(s) && NoNewAccess(s, s') && LinesShrink(s.lines, s'.lines)
    ensures forall a | a in s'.lines :: OneOffer(s', s'.lines[a], a)
  {
    forall a | a in s'.lines ensures OneOffer(s', s'.lines[a], a) {
      assert OneOffer(s, s.lines[a], a);
      assert forall d | 0 <= d < |s.cores| :: GainsNothing(s.cores[d], s'.cores[d], a);
    }
  }

  lemma OfferRequest(s: State, s': State, c: nat, a: Addr, exclusive: bool)
    requires OfferInv(s) && RequestStep(s, s', c, a, exclusive)
    ensures OfferInv(s')
  {
    forall b | b in s'.lines ensures OneOffer(s', s'.lines[b], b) {
      assert b != a ==> OneOffer(s, s.lines[b], b);
    }
  }

  /** Who forwards a block has written it and owns it. */
  lemma OnlyOwnersOffer(cfg: Config, s: State, a: Addr, p: nat, hasLine: bool, writeInFlight: bool)
    requires Sedate(cfg) && HtmSerial.Inv(s) && Powerless(s) && OfferInv(s) && a in s.lines && p < |s.cores|
    requires Answer(cfg, s, a, p, hasLine, writeInFlight).Some?
    ensures CarriesData(Answer(cfg, s, a, p, hasLine, writeInFlight).value.1) ==> a in s.cores[p].writable
  {
    assert HtmSerial.WritesCovered(s.cores[p]) && Apart(s.cores[p]);
    AnswerShape(cfg, s, a, p, hasLine, writeInFlight);
  }

  lemma OfferAnswered(s: State, s': State, r: Request, a: Addr, p: nat, reply: Reply)
    requires HtmSerial.Inv(s) && OneOffer(s, r, a) && p in r.pending && p != r.core && p < |s.cores|
    requires a in s'.lines && NoNewAccess(s, s')
    requires reply.Nack? ==> reply.sender.core == p
    requires CarriesData(reply) ==> a in s.cores[p].writable
    ensures OneOffer(s', r.(pending := r.pending - {p}, replies := r.replies + [reply]), a)
  {
    var r' := r.(pending := r.pending - {p}, replies := r.replies + [reply]);
    assert forall i | 0 <= i < |r.replies| :: r'.replies[i] == r.replies[i];
    assert r'.replies[|r.replies|] == reply;
    assert forall d | 0 <= d < |s.cores| :: GainsNothing(s.cores[d], s'.cores[d], a);
    if CarriesData(reply) {
      OwnerAlone(s, a, p);
      assert forall i | 0 <= i < |r.replies| && r.replies[i].Nack? :: r.replies[i].sender.core != p;
    }
  }

  /** Nobody but the owner can read or write the block, or has accessed it. */
  lemma OwnerAlone(s: State, a: Addr, p: nat)
    requires HtmSerial.Inv(s) && p < |s.cores| && a in s.cores[p].writable
    ensures forall d | 0 <= d < |s.cores| && d != p :: a !in s.cores[d].writable && Stranger(s.cores[d], a)
  {
    forall d | 0 <= d < |s.cores| && d != p ensures a !in s.cores[d].writable && Stranger(s.cores[d], a) {
      assert HtmSerial.WellFormed(s.cores[d]);
      assert s.cores[p].writable !! s.cores[d].readable;
    }
  }

  lemma AnswerApart(cfg: Config, s: State, e: Step)
    requires HtmSerial.Inv(s) && OfferInv(s) && e.Respond? && Enabled(cfg, s, e)
    ensures var (k', reply) := Answer(cfg, s, e.addr, e.core, e.hasLine, e.writeInFlight).value;
            Apart(k') && (reply.Nack? ==> reply.sender.core == e.core)
  {
    assert HtmSerial.WellFormed(s.cores[e.core]) && HtmSerial.WritesCovered(s.cores[e.core]) && Apart(s.cores[e.core]);
    HtmSerial.AnswerConcedes(cfg, s, e.addr, e.core, e.hasLine, e.writeInFlight);
  }

  lemma OfferRespond(cfg: Config, s: State, s': State, e: Step)
    requires Sedate(cfg) && HtmSerial.Inv(s) && Provenance(s) && Powerless(s) && OfferInv(s) && RespondStep(cfg, s, s', e)
    ensures OfferInv(s')
  {
    var a, r := e.addr, s.lines[e.addr];
    var (k', reply) := Answer(cfg, s, a, e.core, e.hasLine, e.writeInFlight).value;
    OnlyOwnersOffer(cfg, s, a, e.core, e.hasLine, e.writeInFlight);
    AnswerApart(cfg, s, e);
    forall b | b in s'.lines ensures GainsNothing(s.cores[e.core], s'.cores[e.core], b) {
      AnswerAccess(cfg, s, e, b);
    }
    OneCoreAccess(s, s', e.core);
    assert OneOffer(s, r, a) && RepliesFromPast(s, r);
    OfferAnswered(s, s', r, a, e.core, reply);
    forall b | b in s'.lines && b != a ensures OneOffer(s', s'.lines[b], b) {
      assert OneOffer(s, s.lines[b], b);
      assert forall d | 0 <= d < |s.cores| :: GainsNothing(s.cores[d], s'.cores[d], b);
    }
  }

  lemma LocalApart(cfg: Config, s: State, e: Step)
    requires OfferInv(s) && Enabled(cfg, s, e) && !e.Issue? && !e.Respond? && !e.Deliver? && !e.Store?
    ensures Apart(Next(cfg, s, e).cores[e.core])
  {
    assert Apart(s.cores[e.core]);
  }

  lemma OfferLocal(cfg: Config, s: State, e: Step)
    requires HtmSerial.Inv(s) && OfferInv(s) && Enabled(cfg, s, e) && !e.Issue? && !e.Respond? && !e.Deliver? && !e.Store?
    ensures OfferInv(Next(cfg, s, e))
  {
    var s' := Next(cfg, s, e);
    LocalApart(cfg, s, e);
    CalmLocal(cfg, s, e);
    forall b | b in s'.lines ensures GainsNothing(s.cores[e.core], s'.cores[e.core], b) {
      LocalAccess(cfg, s, e, b);
    }
    OneCoreAccess(s, s', e.core);
    OfferLines(s, s');
  }

  lemma {:induction false} MergedEldest(rs: seq<Reply>)
    requires MergeReplies(rs).Some?
    ensures exists n :: n in rs && n.Nack? && n.stamp == MergeReplies(rs).value.stamp
                        && n.sender.core == MergeReplies(rs).value.eldest
  {
    var init, last := rs[..|rs| - 1], rs[|rs| - 1];
    if MergeReplies(init).Some? {
      MergedEldest(init);
      var n :| n in init && n.Nack? && n.stamp == MergeReplies(init).value.stamp
               && n.sender.core == MergeReplies(init).value.eldest;
      assert n in rs && last in rs;
    } else {
      assert last in rs;
    }
  }

  /** The only nacker is the one whose age is looked at. */
  lemma OneNacker(cfg: Config, s: State, s': State, e: Step) returns (n: Reply)
    requires OfferInv(s) && ConsumeStep(cfg, s, s', e)
    ensures CarriesData(n) && n in s.lines[e.addr].replies && Nackers(s.lines[e.addr].replies) == {n.sender}
    ensures n.stamp == MergeReplies(e.order).value.stamp && n.sender.core == MergeReplies(e.order).value.eldest
  {
    var r := s.lines[e.addr];
    MergedEldest(e.order);
    n :| n in e.order && n.Nack? && n.stamp == MergeReplies(e.order).value.stamp
         && n.sender.core == MergeReplies(e.order).value.eldest;
    MergedIsLowest(e.order);
    assert n in multiset(r.replies);
    assert OneOffer(s, r, e.addr);
    forall i | 0 <= i < |r.replies| && r.replies[i].Nack? ensures r.replies[i] == n {
      HtmSerial.SameMembers(r.replies, e.order, i);
      var j :| 0 <= j < |r.replies| && r.replies[j] == n;
    }
    assert n.sender in Nackers(r.replies);
  }

  lemma TakenApart(cfg: Config, k: Core, a: Addr, m: Merged, from: set<TxId>, suspect: bool)
    requires Apart(k) && HtmSerial.Running(k) && a !in k.granted && m.data.Some?
    ensures Apart(Consumed(cfg, k, a, m, from, suspect))
  {
  }

  lemma GrantedApart(s: State, k: Core, a: Addr, r: Request)
    requires Apart(k)
    ensures Apart(Granted(s, k, a, r))
  {
  }

  lemma DeliverApart(cfg: Config, s: State, e: Step)
    requires OfferInv(s) && e.Deliver? && Enabled(cfg, s, e)
    ensures Apart(Next(cfg, s, e).cores[s.lines[e.addr].core])
  {
    var a, r, s' := e.addr, s.lines[e.addr], Next(cfg, s, e);
    var k := s.cores[r.core];
    assert Apart(k);
    if MergeReplies(e.order).None? {
      GrantedApart(s, k, a, r);
    } else if Consumes(cfg, s, a, MergeReplies(e.order).value) {
      var m := MergeReplies(e.order).value;
      var n := OneNacker(cfg, s, s', e);
      assert OneOffer(s, r, a);
      TakenApart(cfg, k, a, m, Nackers(r.replies), Suspect(cfg, k, r.core, m));
    }
  }

  // ---------- Time ----------

  /** Nothing has begun after the clock. */
  predicate Clocked(s: State) {
    forall c | 0 <= c < |s.cores| :: s.cores[c].stamp <= s.clock
  }

  /** The time at which a core began never decreases. */
  ghost predicate NoRewind(s: State, s': State) {
    |s'.cores| == |s.cores| && forall c | 0 <= c < |s.cores| :: s.cores[c].stamp <= s'.cores[c].stamp
  }

  lemma DeliveredStamps(cfg: Config, s: State, k: Core, a: Addr, r: Request, m: Merged, from: set<TxId>, suspect: bool)
    ensures Granted(s, k, a, r).stamp == k.stamp && Refused(cfg, k, a, suspect).stamp == k.stamp
    ensures m.data.Some? ==> Consumed(cfg, k, a, m, from, suspect).stamp == k.stamp
  {
  }

  lemma NackStamps(cfg: Config, s: State, a: Addr, m: Merged, retry: bool)
    requires a in s.lines && s.lines[a].core < |s.cores|
    ensures var s' := DeliverNack(cfg, s, a, m, retry);
            && |s'.cores| == |s.cores| && s'.clock == s.clock
            && forall d | 0 <= d < |s.cores| :: s'.cores[d].stamp == s.cores[d].stamp
  {
    var r := s.lines[a];
    var k := s.cores[r.core];
    DeliveredStamps(cfg, s, k, a, r, m, Nackers(r.replies), Suspect(cfg, k, r.core, m));
  }

  lemma ClockedDeliver(cfg: Config, s: State, e: Step)
    requires Clocked(s) && e.Deliver? && Enabled(cfg, s, e)
    ensures Clocked(Next(cfg, s, e)) && NoRewind(s, Next(cfg, s, e))
  {
    if MergeReplies(e.order).Some? {
      NackStamps(cfg, s, e.addr, MergeReplies(e.order).value, e.retry);
    }
  }

  lemma ClockedLocal(cfg: Config, s: State, e: Step)
    requires Clocked(s) && Enabled(cfg, s, e) && !e.Issue? && !e.Respond? && !e.Deliver? && !e.Store?
    ensures Clocked(Next(cfg, s, e)) && NoRewind(s, Next(cfg, s, e))
  {
  }

  lemma ClockedStep(cfg: Config, s: State, e: Step)
    requires Clocked(s) && Enabled(cfg, s, e)
    ensures Clocked(Next(cfg, s, e)) && NoRewind(s, Next(cfg, s, e))
  {
    match e
    case Respond(a, p, hasLine, writeInFlight) => AnswerShape(cfg, s, a, p, hasLine, writeInFlight);
    case Deliver(_, _, _) => ClockedDeliver(cfg, s, e);
    case Issue(_, _, _) =>
    case Store(_, _, _) =>
    case _ => ClockedLocal(cfg, s, e);
  }

  // ---------- Ages ----------

  predicate OlderThan(s: State, c: nat, d: nat) {
    c < |s.cores| && d < |s.cores| && Older(s.cores[c].stamp, c, s.cores[d].stamp, d)
  }

  /** No running producer of core `c` is older than its transaction. */
  predicate Clear(s: State, c: nat)
    requires c < |s.cores|
  {
    !s.cores[c].doomed ==> forall t | t in ProducersOf(s.cores[c]) && Live(s, t) :: !OlderThan(s, t.core, c)
  }

  /** Who has forwarded data to a core whose transaction is older now is warned, and has no
      older producer. */
  predicate Heeds(s: State, c: nat)
    requires c < |s.cores|
  {
    s.cores[c].inTx ==> forall d | d in s.cores[c].sentTo && OlderThan(s, d, c) :: s.cores[c].cycleFlag && Clear(s, c)
  }

  /** A running producer has recorded its consumer. */
  predicate Recorded(s: State, c: nat)
    requires c < |s.cores|
  {
    forall t | t in ProducersOf(s.cores[c]) && Live(s, t) :: c in s.cores[t.core].sentTo
  }

  /** With numbers, only who has forwarded data has a position, and to one core only. */
  predicate OneConsumer(cfg: Config, k: Core) {
    cfg.numeric && k.inTx ==> (k.prio.Num? ==> k.sentTo != {}) && forall d, e | d in k.sentTo && e in k.sentTo :: d == e
  }

  predicate AgedReply(s: State, r: Request, n: Reply) {
    n.Nack? && Live(s, n.sender) ==>
      && n.stamp == s.cores[n.sender.core].stamp
      && (n.data.Some? ==> r.core in s.cores[n.sender.core].sentTo)
  }

  predicate AgedRequest(s: State, r: Request) {
    && r.core < |s.cores| && (r.trans ==> r.stamp <= s.cores[r.core].stamp)
    && forall i | 0 <= i < |r.replies| :: AgedReply(s, r, r.replies[i])
  }

  predicate AgedCore(cfg: Config, s: State, c: nat)
    requires c < |s.cores|
  {
    Heeds(s, c) && Recorded(s, c) && OneConsumer(cfg, s.cores[c])
  }

  predicate AgeInv(cfg: Config, s: State) {
    && (forall c | 0 <= c < |s.cores| :: AgedCore(cfg, s, c))
    && (forall a | a in s.lines :: AgedRequest(s, s.lines[a]))
  }

  /** From `s` to `s'` the transactions that go on keep their age, their consumers and their
      warning. */
  ghost predicate Persists(s: State, s': State) {
    && NoRewind(s, s')
    && forall t | Past(s, t) && Live(s', t) ::
         && Live(s, t) && s'.cores[t.core].stamp == s.cores[t.core].stamp
         && s.cores[t.core].sentTo <= s'.cores[t.core].sentTo
         && (s.cores[t.core].cycleFlag ==> s'.cores[t.core].cycleFlag) && (s.cores[t.core].doomed ==> s'.cores[t.core].doomed)
  }

  lemma CalmPersists(s: State, s': State, c: nat)
    requires CalmStep(s, s', c) && NoRewind(s, s')
    ensures Persists(s, s')
  {
  }

  lemma AgedLineStays(s: State, s': State, r: Request)
    requires Persists(s, s') && RepliesFromPast(s, r) && AgedRequest(s, r)
    ensures AgedRequest(s', r)
  {
    forall i | 0 <= i < |r.replies| ensures AgedReply(s', r, r.replies[i]) {
      assert AgedReply(s, r, r.replies[i]);
    }
  }

  lemma ClearStays(s: State, s': State, d: nat)
    requires Provenance(s) && Persists(s, s') && d < |s.cores| && Clear(s, d)
    requires s.cores[d].stamp == s'.cores[d].stamp && (s.cores[d].doomed ==> s'.cores[d].doomed)
    requires ProducersOf(s'.cores[d]) <= ProducersOf(s.cores[d])
    ensures Clear(s', d)
  {
  }

  /** A core that keeps its producers and its consumers, or has left its transaction. */
  lemma AgedCoreStays(cfg: Config, s: State, s': State, d: nat)
    requires Provenance(s) && Persists(s, s') && d < |s.cores| && AgedCore(cfg, s, d)
    requires var k, k' := s.cores[d], s'.cores[d];
             && k.uid <= k'.uid && ProducersOf(k') <= ProducersOf(k)
             && (if k'.inTx && k'.uid == k.uid then k'.sentTo == k.sentTo && k'.prio == k.prio
                 else k'.sentTo == {} && k'.prio.NC?)
    ensures AgedCore(cfg, s', d)
  {
    var k, k' := s.cores[d], s'.cores[d];
    if k'.inTx && k'.uid == k.uid {
      assert Past(s, TxId(d, k.uid)) && Live(s', TxId(d, k.uid));
      forall e | e in k'.sentTo && OlderThan(s', e, d) ensures k'.cycleFlag && Clear(s', d) {
        assert OlderThan(s, e, d);
        ClearStays(s, s', d);
      }
    }
    forall t | t in ProducersOf(k') && Live(s', t) ensures d in s'.cores[t.core].sentTo {
      assert Past(s, t) && Live(s, t);
    }
  }

  lemma AgeCalm(cfg: Config, s: State, s': State, c: nat)
    requires Provenance(s) && AgeInv(cfg, s) && CalmStep(s, s', c) && NoRewind(s, s')
    ensures AgeInv(cfg, s')
  {
    CalmPersists(s, s', c);
    forall a | a in s'.lines ensures AgedRequest(s', s'.lines[a]) {
      assert RepliesFromPast(s, s.lines[a]);
      AgedLineStays(s, s', s.lines[a]);
    }
    forall d | 0 <= d < |s'.cores| ensures AgedCore(cfg, s', d) {
      AgedIfCalm(cfg, s, s', c, d);
    }
  }

  lemma AgedIfCalm(cfg: Config, s: State, s': State, c: nat, d: nat)
    requires Provenance(s) && AgeInv(cfg, s) && CalmStep(s, s', c) && Persists(s, s') && d < |s.cores|
    ensures AgedCore(cfg, s', d)
  {
    assert AgedCore(cfg, s, d);
    if d != c && !s.cores[d].inTx {
      assert s'.cores[d] == s.cores[d];
      forall t | t in ProducersOf(s'.cores[d]) && Live(s', t) ensures d in s'.cores[t.core].sentTo {
        assert Past(s, t) && Live(s, t);
      }
    } else {
      AgedCoreStays(cfg, s, s', d);
    }
  }

  lemma AgeSameCores(cfg: Config, s: State, s': State)
    requires AgeInv(cfg, s) && s'.cores == s.cores
    requires forall b | b in s'.lines :: (b in s.lines && s'.lines[b] == s.lines[b]) || AgedRequest(s', s'.lines[b])
    ensures AgeInv(cfg, s')
  {
    forall b | b in s'.lines ensures AgedRequest(s', s'.lines[b]) {
      if b in s.lines && s'.lines[b] == s.lines[b] {
        SameCoresAged(s, s', s.lines[b]);
      }
    }
    forall d | 0 <= d < |s'.cores| ensures AgedCore(cfg, s', d) {
      assert AgedCore(cfg, s, d);
      assert forall t :: Live(s', t) <==> Live(s, t);
      assert forall e :: OlderThan(s', e, d) <==> OlderThan(s, e, d);
    }
  }

  lemma SameCoresAged(s: State, s': State, r: Request)
    requires AgedRequest(s, r) && s'.cores == s.cores
    ensures AgedRequest(s', r)
  {
    forall i | 0 <= i < |r.replies| ensures AgedReply(s', r, r.replies[i]) {
      assert AgedReply(s, r, r.replies[i]);
    }
  }

  // ---------- Answers ----------

  /** What an answer does to the age and the warning. */
  lemma AnswerWarns(cfg: Config, s: State, a: Addr, p: nat, hasLine: bool, writeInFlight: bool)
    requires a in s.lines && p < |s.cores| && Answer(cfg, s, a, p, hasLine, writeInFlight).Some?
    ensures var (k', reply) := Answer(cfg, s, a, p, hasLine, writeInFlight).value;
            var k, r := s.cores[p], s.lines[a];
            && (k.cycleFlag ==> k'.cycleFlag) && (k.doomed ==> k'.doomed)
            && (reply.Nack? ==> reply.stamp == k.stamp)
            && (CarriesData(reply) ==> r.trans)
            && (reply.Nack? && cfg.policy.RequesterStalls? && Older(r.stamp, r.core, k.stamp, p) ==> k'.cycleFlag)
  {
  }

  /** A consumer forwards only to the core it has forwarded to before. */
  lemma AnswerToOne(cfg: Config, s: State, a: Addr, p: nat, hasLine: bool, writeInFlight: bool)
    requires Sedate(cfg) && Powerless(s) && a in s.lines && p < |s.cores| && Answer(cfg, s, a, p, hasLine, writeInFlight).Some?
    requires OneConsumer(cfg, s.cores[p])
    ensures var (k', reply) := Answer(cfg, s, a, p, hasLine, writeInFlight).value;
            var k, r := s.cores[p], s.lines[a];
            && (CarriesData(reply) && k.consumed.Keys != {} ==> r.core in k.sentTo)
            && OneConsumer(cfg, k')
  {
    var (k', reply) := Answer(cfg, s, a, p, hasLine, writeInFlight).value;
    var k, r := s.cores[p], s.lines[a];
    AnswerShape(cfg, s, a, p, hasLine, writeInFlight);
    if CarriesData(reply) && cfg.numeric {
      ToOne(cfg, k, a, r, writeInFlight);
    }
  }

  lemma ToOne(cfg: Config, k: Core, a: Addr, r: Request, writeInFlight: bool)
    requires cfg.numeric && !TwoConsumers(cfg) && !k.power && k.inTx && OneConsumer(cfg, k) && CanProduce(cfg, k)
    requires BecomeProducer(cfg, k, a, r, writeInFlight).Forward?
    ensures k.sentTo == {} || r.core in k.sentTo
    ensures k.consumed.Keys != {} ==> r.core in k.sentTo
  {
    if k.sentTo != {} {
      var d :| d in k.sentTo;
      SubsetCount({d}, k.sentTo);
    }
  }

  /** A core answers: its age and producers stay, a nack to an older request warns it, and
      data goes to a recorded core. */
  lemma AgeAnswered(cfg: Config, s: State, mid: State, a: Addr, p: nat)
    requires Provenance(s) && AgeInv(cfg, s) && p < |s.cores| == |mid.cores| && a in s.lines
    requires mid.cores == s.cores[p := mid.cores[p]] && mid.lines == s.lines
    requires var k, k', r := s.cores[p], mid.cores[p], s.lines[a];
             && k'.inTx == k.inTx && k'.uid == k.uid && k'.stamp == k.stamp && k'.consumed == k.consumed
             && (k.cycleFlag ==> k'.cycleFlag) && (k.doomed ==> k'.doomed) && OneConsumer(cfg, k')
             && (k'.sentTo == k.sentTo
                 || (k'.sentTo == k.sentTo + {r.core} && k.consumed.Keys == {} && r.trans
                     && (Older(r.stamp, r.core, k.stamp, p) ==> k'.cycleFlag)))
    ensures AgeInv(cfg, mid)
  {
    var k, k', r := s.cores[p], mid.cores[p], s.lines[a];
    assert Persists(s, mid);
    assert AgedRequest(s, r);
    forall b | b in mid.lines ensures AgedRequest(mid, mid.lines[b]) {
      assert RepliesFromPast(s, s.lines[b]);
      AgedLineStays(s, mid, s.lines[b]);
    }
    assert forall d | 0 <= d < |s.cores| :: ProducersOf(mid.cores[d]) == ProducersOf(s.cores[d]);
    forall d | 0 <= d < |mid.cores| ensures AgedCore(cfg, mid, d) {
      assert AgedCore(cfg, s, d);
      AnsweredRecorded(s, mid, d);
      AnsweredHeeds(s, mid, p, a, d);
    }
  }

  lemma AnsweredRecorded(s: State, mid: State, d: nat)
    requires Provenance(s) && Persists(s, mid) && d < |s.cores| && Recorded(s, d)
    requires ProducersOf(mid.cores[d]) == ProducersOf(s.cores[d])
    ensures Recorded(mid, d)
  {
  }

  lemma AnsweredHeeds(s: State, mid: State, p: nat, a: Addr, d: nat)
    requires Provenance(s) && Persists(s, mid) && d < |s.cores| && Heeds(s, d) && p < |s.cores| && a in s.lines
    requires mid.cores == s.cores[p := mid.cores[p]] && ProducersOf(mid.cores[d]) == ProducersOf(s.cores[d])
    requires AgedRequest(s, s.lines[a])
    requires var k, k', r := s.cores[p], mid.cores[p], s.lines[a];
             && k'.inTx == k.inTx && k'.uid == k.uid && k'.stamp == k.stamp && k'.consumed == k.consumed
             && (k.cycleFlag ==> k'.cycleFlag) && (k.doomed ==> k'.doomed)
             && (k'.sentTo == k.sentTo
                 || (k'.sentTo == k.sentTo + {r.core} && k.consumed.Keys == {} && r.trans
                     && (Older(r.stamp, r.core, k.stamp, p) ==> k'.cycleFlag)))
    ensures Heeds(mid, d)
  {
    forall e | mid.cores[d].inTx && e in mid.cores[d].sentTo && OlderThan(mid, e, d)
      ensures mid.cores[d].cycleFlag && Clear(mid, d)
    {
      assert OlderThan(s, e, d);
      if e in s.cores[d].sentTo {
        ClearStays(s, mid, d);
      } else {
        assert d == p && ProducersOf(mid.cores[d]) == {};
      }
    }
  }

  lemma AgeReplied(cfg: Config, mid: State, s': State, a: Addr, p: nat, reply: Reply)
    requires AgeInv(cfg, mid) && a in mid.lines && s'.cores == mid.cores && AgedReply(mid, mid.lines[a], reply)
    requires var r := mid.lines[a];
             s'.lines == mid.lines[a := r.(pending := r.pending - {p}, replies := r.replies + [reply])]
    ensures AgeInv(cfg, s')
  {
    var r, r' := mid.lines[a], s'.lines[a];
    assert AgedRequest(mid, r);
    forall i | 0 <= i < |r'.replies| ensures AgedReply(s', r', r'.replies[i]) {
      if i < |r.replies| {
        assert AgedReply(mid, r, r.replies[i]);
      }
    }
    AgeSameCores(cfg, mid, s');
  }

  lemma AgeRespond(cfg: Config, s: State, s': State, e: Step)
    requires Sedate(cfg) && Provenance(s) && Powerless(s) && AgeInv(cfg, s) && RespondStep(cfg, s, s', e)
    ensures AgeInv(cfg, s')
  {
    var a, p := e.addr, e.core;
    var (k', reply) := Answer(cfg, s, a, p, e.hasLine, e.writeInFlight).value;
    var mid := s.(cores := s.cores[p := k']);
    assert AgedCore(cfg, s, p);
    AnswerShape(cfg, s, a, p, e.hasLine, e.writeInFlight);
    AnswerWarns(cfg, s, a, p, e.hasLine, e.writeInFlight);
    AnswerToOne(cfg, s, a, p, e.hasLine, e.writeInFlight);
    if CarriesData(reply) && s.cores[p].consumed.Keys != {} {
      assert s.cores[p].sentTo + {s.lines[a].core} == s.cores[p].sentTo;
    }
    AgeAnswered(cfg, s, mid, a, p);
    AgeReplied(cfg, mid, s', a, p, reply);
  }

  // ---------- Taking in data ----------

  lemma OfferDeliver(cfg: Config, s: State, e: Step)
    requires OfferInv(s) && e.Deliver? && Enabled(cfg, s, e)
    requires var s', c := Next(cfg, s, e), s.lines[e.addr].core;
             |s'.cores| == |s.cores| && s'.cores == s.cores[c := s'.cores[c]] && LinesShrink(s.lines, s'.lines)
    ensures OfferInv(Next(cfg, s, e))
  {
    var s', c := Next(cfg, s, e), s.lines[e.addr].core;
    DeliverApart(cfg, s, e);
    forall b | b in s'.lines ensures GainsNothing(s.cores[c], s'.cores[c], b) {
      DeliveryAccess(cfg, s, e, b);
    }
    OneCoreAccess(s, s', c);
    OfferLines(s, s');
  }

  lemma ConsumedFlags(cfg: Config, k: Core, a: Addr, m: Merged, from: set<TxId>, suspect: bool)
    requires m.data.Some? && cfg.policy.RequesterStalls?
    ensures var k' := Consumed(cfg, k, a, m, from, suspect);
            && k'.stamp == k.stamp && k'.cycleFlag == k.cycleFlag && k'.sentTo == k.sentTo && k'.prio == k.prio
            && k'.inTx == k.inTx && k'.uid == k.uid && (suspect ==> k'.doomed)
  {
  }

  /** Core `c` takes in data from the transaction `t`; it is doomed if it is warned and `t` older. */
  ghost predicate TakenFrom(s: State, s': State, c: nat, t: TxId) {
    && c < |s.cores| == |s'.cores| && s'.cores == s.cores[c := s'.cores[c]] && LinesShrink(s.lines, s'.lines)
    && var k, k' := s.cores[c], s'.cores[c];
    && HtmSerial.Running(k) && k'.inTx && k'.uid == k.uid && k'.stamp == k.stamp && k'.cycleFlag == k.cycleFlag
    && k'.sentTo == k.sentTo && k'.prio == k.prio && ProducersOf(k') <= ProducersOf(k) + {t}
    && Past(s, t) && (Live(s, t) ==> c in s.cores[t.core].sentTo)
    && (Live(s, t) && k.cycleFlag && OlderThan(s, t.core, c) ==> k'.doomed)
  }

  lemma AgeTaken(cfg: Config, s: State, s': State, c: nat, t: TxId)
    requires Provenance(s) && AgeInv(cfg, s) && TakenFrom(s, s', c, t)
    ensures AgeInv(cfg, s')
  {
    assert Persists(s, s');
    forall b | b in s'.lines ensures AgedRequest(s', s'.lines[b]) {
      assert RepliesFromPast(s, s.lines[b]);
      AgedLineStays(s, s', s.lines[b]);
    }
    forall d | 0 <= d < |s'.cores| ensures AgedCore(cfg, s', d) {
      assert AgedCore(cfg, s, d);
      TakenRecorded(s, s', c, t, d);
      TakenHeeds(s, s', c, t, d);
    }
  }

  lemma TakenRecorded(s: State, s': State, c: nat, t: TxId, d: nat)
    requires Provenance(s) && Persists(s, s') && TakenFrom(s, s', c, t) && d < |s.cores| && Recorded(s, d)
    ensures Recorded(s', d)
  {
    forall u | u in ProducersOf(s'.cores[d]) && Live(s', u) ensures d in s'.cores[u.core].sentTo {
      assert u in ProducersOf(s.cores[d]) || (d == c && u == t);
    }
  }

  lemma TakenHeeds(s: State, s': State, c: nat, t: TxId, d: nat)
    requires Provenance(s) && Persists(s, s') && TakenFrom(s, s', c, t) && d < |s.cores| && Heeds(s, d)
    ensures Heeds(s', d)
  {
    forall e | s'.cores[d].inTx && e in s'.cores[d].sentTo && OlderThan(s', e, d)
      ensures s'.cores[d].cycleFlag && Clear(s', d)
    {
      assert OlderThan(s, e, d);
      if d != c {
        ClearStays(s, s', d);
      } else if !s'.cores[c].doomed {
        forall u | u in ProducersOf(s'.cores[c]) && Live(s', u) ensures !OlderThan(s', u.core, c) {
          assert u in ProducersOf(s.cores[c]) || u == t;
        }
      }
    }
  }

  lemma AgeConsume(cfg: Config, s: State, s': State, e: Step)
    requires cfg.policy.RequesterStalls? && Provenance(s) && OfferInv(s) && AgeInv(cfg, s) && ConsumeStep(cfg, s, s', e)
    ensures AgeInv(cfg, s')
  {
    var a, r, m := e.addr, s.lines[e.addr], MergeReplies(e.order).value;
    var k := s.cores[r.core];
    var n := OneNacker(cfg, s, s', e);
    ConsumedProducers(cfg, k, a, m, {n.sender}, Suspect(cfg, k, r.core, m));
    ConsumedFlags(cfg, k, a, m, {n.sender}, Suspect(cfg, k, r.core, m));
    assert AgedRequest(s, r) && RepliesFromPast(s, r);
    var i :| 0 <= i < |r.replies| && r.replies[i] == n;
    assert AgedReply(s, r, n);
    AgeTaken(cfg, s, s', r.core, n.sender);
  }

  // ---------- Every run ----------

  predicate StallInv(cfg: Config, s: State) {
    ChainInv(s) && Powerless(s) && Clocked(s) && OfferInv(s) && AgeInv(cfg, s)
  }

  lemma OfferDelivered(cfg: Config, s: State, e: Step)
    requires ChainInv(s) && OfferInv(s) && e.Deliver? && Enabled(cfg, s, e)
    ensures OfferInv(Next(cfg, s, e))
  {
    var s', r := Next(cfg, s, e), s.lines[e.addr];
    DeliverShape(cfg, s, e);
    if RequestStep(s, s', r.core, e.addr, r.exclusive) {
      OfferRequest(s, s', r.core, e.addr, r.exclusive);
    } else {
      OfferDeliver(cfg, s, e);
    }
  }

  lemma AgeDelivered(cfg: Config, s: State, s': State, e: Step)
    requires cfg.policy.RequesterStalls? && ChainInv(s) && OfferInv(s) && AgeInv(cfg, s) && NoRewind(s, s')
    requires e.Deliver? && Enabled(cfg, s, e) && s' == Next(cfg, s, e)
    ensures AgeInv(cfg, s')
  {
    var r := s.lines[e.addr];
    DeliverShape(cfg, s, e);
    if RequestStep(s, s', r.core, e.addr, r.exclusive) {
      AgeSameCores(cfg, s, s');
    } else if ConsumeStep(cfg, s, s', e) {
      AgeConsume(cfg, s, s', e);
    } else {
      AgeCalm(cfg, s, s', r.core);
    }
  }

  lemma StallLocal(cfg: Config, s: State, e: Step)
    requires StallInv(cfg, s) && Enabled(cfg, s, e) && !e.Issue? && !e.Respond? && !e.Deliver? && !e.Store?
    ensures OfferInv(Next(cfg, s, e)) && AgeInv(cfg, Next(cfg, s, e))
  {
    CalmLocal(cfg, s, e);
    ClockedStep(cfg, s, e);
    OfferLocal(cfg, s, e);
    AgeCalm(cfg, s, Next(cfg, s, e), e.core);
  }

  lemma StallStore(cfg: Config, s: State, s': State)
    requires OfferInv(s) && AgeInv(cfg, s) && s'.cores == s.cores && s'.lines == s.lines
    ensures OfferInv(s') && AgeInv(cfg, s')
  {
    AgeSameCores(cfg, s, s');
    forall a | a in s'.lines ensures OneOffer(s', s'.lines[a], a) {
      assert OneOffer(s, s.lines[a], a);
    }
  }

  lemma StallStep(cfg: Config, s: State, e: Step)
    requires Sedate(cfg) && StallInv(cfg, s) && Enabled(cfg, s, e)
    ensures OfferInv(Next(cfg, s, e)) && AgeInv(cfg, Next(cfg, s, e))
  {
    match e
    case Issue(c, a, exclusive) =>
      OfferRequest(s, Next(cfg, s, e), c, a, exclusive);
      AgeSameCores(cfg, s, Next(cfg, s, e));
    case Respond(_, _, _, _) =>
      OfferRespond(cfg, s, Next(cfg, s, e), e);
      AgeRespond(cfg, s, Next(cfg, s, e), e);
    case Deliver(_, _, _) =>
      ClockedDeliver(cfg, s, e);
      OfferDelivered(cfg, s, e);
      AgeDelivered(cfg, s, Next(cfg, s, e), e);
    case Store(_, _, _) => StallStore(cfg, s, Next(cfg, s, e));
    case _ => StallLocal(cfg, s, e);
  }

  lemma {:induction false} StallInvAlways(cfg: Config, n: nat, steps: seq<Step>)
    requires Sedate(cfg) && Run(cfg, n, steps).Some?
    ensures StallInv(cfg, Run(cfg, n, steps).value)
  {
    ChainInvAlways(cfg, n, steps);
    PowerlessAlways(cfg, n, steps);
    if steps != [] {
      var before := steps[..|steps| - 1];
      StallInvAlways(cfg, n, before);
      StallStep(cfg, Run(cfg, n, before).value, steps[|steps| - 1]);
      ClockedStep(cfg, Run(cfg, n, before).value, steps[|steps| - 1]);
    }
  }

  // ---------- The youngest member of a cycle ----------

  /** Transactions that wait for each other in a circle, none of them doomed. */
  ghost predicate Deadlock(s: State, p: seq<nat>) {
    IsCycle(Dependencies(s), p) && forall i | 0 <= i < |p| :: p[i] < |s.cores| && !s.cores[p[i]].doomed
  }

  lemma {:induction false} Youngest(s: State, p: seq<nat>) returns (y: nat)
    requires p != [] && forall i | 0 <= i < |p| :: p[i] < |s.cores|
    ensures y < |p| && forall i | 0 <= i < |p| :: p[i] == p[y] || OlderThan(s, p[i], p[y])
  {
    if |p| == 1 {
      y := 0;
    } else {
      var z := Youngest(s, p[..|p| - 1]);
      y := if OlderThan(s, p[z], p[|p| - 1]) then |p| - 1 else z;
    }
  }

  /** Who has forwarded data to an older transaction and consumed from an older one aborts. */
  lemma BetweenOlder(cfg: Config, s: State, x: nat, c: nat, z: nat)
    requires AgeInv(cfg, s) && DependsOn(s, c, x) && DependsOn(s, z, c) && OlderThan(s, x, c) && OlderThan(s, z, c)
    ensures s.cores[c].doomed
  {
    assert AgedCore(cfg, s, z) && AgedCore(cfg, s, c);
    assert Live(s, TxId(c, s.cores[c].uid)) && Live(s, TxId(x, s.cores[x].uid));
    assert z in s.cores[c].sentTo;
  }

  lemma NotItself(s: State, c: nat, x: nat)
    requires Provenance(s) && DependsOn(s, c, x)
    ensures c != x
  {
  }

  /** A member of a cycle waits for a member, and a member waits for it. */
  lemma Neighbours(s: State, p: seq<nat>, y: nat) returns (x: nat, z: nat)
    requires IsCycle(Dependencies(s), p) && y < |p|
    ensures DependsOn(s, p[y], x) && DependsOn(s, z, p[y]) && x in p && z in p
  {
    var after := if y == |p| - 1 then 0 else y;
    var before := if y == 0 then |p| - 2 else y - 1;
    assert EdgeAt(Dependencies(s), p, after) && EdgeAt(Dependencies(s), p, before);
    x, z := p[after + 1], p[before];
  }

  /** The youngest has forwarded data to an older one and consumed from an older one. */
  lemma NoDeadlock(cfg: Config, s: State, p: seq<nat>)
    requires StallInv(cfg, s)
    ensures !Deadlock(s, p)
  {
    if Deadlock(s, p) {
      var y := Youngest(s, p);
      var x, z := Neighbours(s, p, y);
      NotItself(s, p[y], x);
      NotItself(s, z, p[y]);
      BetweenOlder(cfg, s, x, p[y], z);
      assert false;
    }
  }
}
