/** Runs that lead to transactions waiting for each other, none of them doomed. Under the
    stalling policy the youngest of them must have consumed before it forwarded, or its
    cache must have looked at the age of another nacker. */
module HtmDeadlock {
  import opened Basics
  import opened HtmConfig
  import opened HtmModel
  import opened HtmCycle
  import opened HtmRuns

  /** Cores 0 and 1 wait for each other and will not give up. */
  predicate Locked(cores: seq<Core>) {
    Mutual(cores) && !cores[0].doomed && !cores[1].doomed
  }

  /** The configuration stalls requests and is not safe. */
  predicate Stalling(cfg: Config) {
    Unsafe(cfg) && cfg.policy.RequesterStalls? && cfg.maxConsumedBlocks >= 1
  }

  function Holding(a: Addr, x: Value, from: set<TxId>): map<Addr, Forwarded> {
    map[a := Forwarded(x, from)]
  }

  lemma OneHeld(a: Addr, x: Value, from: set<TxId>)
    ensures |Holding(a, x, from).Keys| == 1
  {
    assert Holding(a, x, from).Keys == {a};
  }

  /** Two cores that hold blocks of each other. */
  lemma MutualBy(cores: seq<Core>, a: Addr, b: Addr)
    requires |cores| >= 2 && cores[0].inTx && cores[1].inTx && a in cores[0].consumed && b in cores[1].consumed
    requires TxId(1, cores[1].uid) in cores[0].consumed[a].producers
    requires TxId(0, cores[0].uid) in cores[1].consumed[b].producers
    ensures Mutual(cores)
  {
  }

  lemma StallingMeans(cfg: Config)
    requires Stalling(cfg)
    ensures !cfg.power && (cfg.numeric ==> cfg.cycle.NoStrategy?)
    ensures cfg.fwd.Naive? || cfg.fwd.W1DN? || cfg.fwd.WNDM? || (cfg.fwd.WXDX? && cfg.maxPrioDiff != 1 && cfg.maxConsumers >= 1)
  {
  }

  /** A transaction that consumes nothing and has forwarded nothing forwards what it may. */
  lemma FirstOffer(cfg: Config, k: Core, p: nat, a: Addr, r: Request)
    requires Stalling(cfg) && k.inTx && !k.doomed && !k.power && k.retries == 0 && k.consumed == map[] && k.sentTo == {}
    requires a in k.granted && (a in k.writeVals || (!cfg.allowed.OnlyWritten? && r.exclusive))
    requires r.trans && !r.power
    ensures OffersAs(cfg, k, p, a, r, k.(prio := PrioAfterSend(cfg, k, r.prio), sentTo := {r.core},
                                         cycleFlag := k.cycleFlag || Older(r.stamp, r.core, k.stamp, p)))
  {
    StallingMeans(cfg);
    assert {} + {r.core} == {r.core};
  }

  /** A first block is taken in, from a nacker that is not older or by a core not warned. */
  lemma FirstTaken(cfg: Config, k: Core, c: nat, a: Addr, r: Request, n: Reply)
    requires Stalling(cfg) && k.inTx && !k.doomed && r.trans && r.uid == k.uid && k.consumed == map[] && !TooDeep(cfg, k.prio)
    requires CarriesValue(n) && !(k.cycleFlag && Older(n.stamp, n.sender.core, k.stamp, c))
    ensures TakesAs(cfg, k, c, a, r, n, k.(consumed := Holding(a, n.data.value, {n.sender}),
                                           everConsumed := k.everConsumed + {n.sender}))
  {
    StallingMeans(cfg);
    OneHeld(a, n.data.value, {n.sender});
  }

  /** The same with two nackers, of which the first is not older. */
  lemma FirstTakenFromTwo(cfg: Config, k: Core, c: nat, a: Addr, r: Request, m: Reply, n: Reply)
    requires Stalling(cfg) && k.inTx && !k.doomed && r.trans && r.uid == k.uid && k.consumed == map[] && !TooDeep(cfg, k.prio)
    requires CarriesValue(m) && CarriesValue(n) && m.stamp <= n.stamp && !Older(m.stamp, m.sender.core, k.stamp, c)
    ensures TakesBothAs(cfg, k, c, a, r, m, n, k.(consumed := Holding(a, m.data.value, {m.sender, n.sender}),
                                                  everConsumed := k.everConsumed + {m.sender, n.sender}))
  {
    StallingMeans(cfg);
    OneHeld(a, m.data.value, {m.sender, n.sender});
  }

  // ---------- Naive forwarding: a consumer forwards too ----------

  function NaiveYounger(): Core {
    Writer(1).(consumed := Holding(0, 7, {TxId(0, 1)}), everConsumed := {TxId(0, 1)})
  }

  function NaiveSender(): Core {
    NaiveYounger().(sentTo := {0}, cycleFlag := true)
  }

  function NaiveOlder(cfg: Config): Core {
    Sender(cfg, 0).(consumed := Holding(1, 7, {TxId(1, 1)}), everConsumed := {TxId(1, 1)})
  }

  lemma NaiveFirst(cfg: Config)
    requires Stalling(cfg) && cfg.fwd.Naive?
    ensures OffersAs(cfg, Writer(0), 0, 0, Asking(1, {0}, []), Sender(cfg, 0))
    ensures TakesAs(cfg, Writer(1), 1, 0, Asking(1, {0}, []), CrossNack(cfg, 0), NaiveYounger())
  {
    Wins(cfg, 0);
    FirstTaken(cfg, Writer(1), 1, 0, Asking(1, {0}, []), CrossNack(cfg, 0));
  }

  function NaiveAsk(cfg: Config): Request {
    Request(0, 1, true, CrossPrio(cfg), false, true, {1}, [], 0)
  }

  lemma NaiveOffers(cfg: Config)
    requires Stalling(cfg) && cfg.fwd.Naive?
    ensures OffersAs(cfg, NaiveYounger(), 1, 1, NaiveAsk(cfg), NaiveSender())
  {
    assert NaiveYounger().sentTo + {0} == {0};
  }

  lemma NaiveTakes(cfg: Config)
    requires Stalling(cfg) && cfg.fwd.Naive?
    ensures TakesAs(cfg, Sender(cfg, 0), 0, 1, NaiveAsk(cfg), NackBy(cfg, NaiveSender(), 1, Some(7)), NaiveOlder(cfg))
  {
    OneHeld(1, 7, {TxId(1, 1)});
  }

  lemma NaiveStarts(cfg: Config)
    requires Stalling(cfg) && cfg.fwd.Naive?
    ensures Reach(cfg, Start([Sender(cfg, 0), NaiveYounger()]))
  {
    BothWrite(cfg);
    NaiveFirst(cfg);
    BecomesSender(cfg, 0);
    assert CoreIds(2) - {1} == {0};
    TwoLend(cfg, Writer(0), Writer(1), 0, Sender(cfg, 0), NaiveYounger(), Asking(1, {0}, []));
  }

  /** Core 1 asks core 0 for block `a`, and the other way round. */
  lemma TwoLend(cfg: Config, x: Core, y: Core, a: Addr, x': Core, y': Core, r: Request)
    requires Reach(cfg, Start([x, y])) && y.inTx && !y.doomed && a !in y.consumed && a !in y.writable
    requires r == ReqOf([x, y], 1, true)
    requires a in x.writeVals && x.writeVals[a] == 7 && OffersAs(cfg, x, 0, a, r, x')
    requires TakesAs(cfg, y, 1, a, r, NackBy(cfg, x', 0, Some(7)), y')
    ensures Reach(cfg, Start([x', y']))
  {
    assert [x, y][0 := x'][1 := y'] == [x', y'];
    LendsAs(cfg, Start([x, y]), a, 1, 0, true, 7, x', y', Start([x', y']));
  }

  lemma TwoLendBack(cfg: Config, x: Core, y: Core, a: Addr, x': Core, y': Core, r: Request)
    requires Reach(cfg, Start([x, y])) && x.inTx && !x.doomed && a !in x.consumed && a !in x.writable
    requires r == ReqOf([x, y], 0, true)
    requires a in y.writeVals && y.writeVals[a] == 7 && OffersAs(cfg, y, 1, a, r, y')
    requires TakesAs(cfg, x, 0, a, r, NackBy(cfg, y', 1, Some(7)), x')
    ensures Reach(cfg, Start([x', y']))
  {
    assert [x, y][1 := y'][0 := x'] == [x', y'];
    LendsAs(cfg, Start([x, y]), a, 0, 1, true, 7, y', x', Start([x', y']));
  }

  lemma NaiveLocks(cfg: Config)
    requires Stalling(cfg) && cfg.fwd.Naive?
    ensures Reach(cfg, Start([NaiveOlder(cfg), NaiveSender()])) && Locked([NaiveOlder(cfg), NaiveSender()])
  {
    NaiveStarts(cfg);
    NaiveOffers(cfg);
    NaiveTakes(cfg);
    assert CoreIds(2) - {0} == {1};
    TwoLendBack(cfg, Sender(cfg, 0), NaiveYounger(), 1, NaiveOlder(cfg), NaiveSender(), NaiveAsk(cfg));
    MutualBy([NaiveOlder(cfg), NaiveSender()], 1, 0);
  }

  // ---------- Forwarding by readers: two nackers of the same age ----------

  /** Core 0 reads block 1, core 1 has written block 0, and core 2 reads block 1. */
  function Reader(): Core {
    Fresh().(readable := {1}, granted := {1}, readVals := map[1 := {0}])
  }

  function ReaderSent(cfg: Config, c: nat): Core {
    Reader().(prio := CrossPrio(cfg), sentTo := {1}, cycleFlag := c == 2)
  }

  function ReaderTook(cfg: Config): Core {
    ReaderSent(cfg, 0).(consumed := Holding(0, 7, {TxId(1, 1)}), everConsumed := {TxId(1, 1)})
  }

  function WriterSent(cfg: Config): Core {
    Writer(0).(prio := CrossPrio(cfg), sentTo := {0}, cycleFlag := true)
  }

  function WriterTook(cfg: Config): Core {
    WriterSent(cfg).(consumed := Holding(1, 0, {TxId(2, 1), TxId(0, 1)}), everConsumed := {TxId(2, 1), TxId(0, 1)})
  }

  lemma ReaderFetches(cfg: Config, v: View, c: nat, cores: seq<Core>)
    requires Reach(cfg, v) && c < |v.cores| && v.cores[c] == Fresh() && 1 !in v.lines && v.memory == map[]
    requires forall d | 0 <= d < |v.cores| && d != c :: 1 !in v.cores[d].writeVals && 1 !in v.cores[d].writable
    requires cores == v.cores[c := Reader()]
    ensures Reach(cfg, v.(cores := cores))
  {
    forall d | 0 <= d < |v.cores| && d != c ensures Indifferent(v.cores[d], 1, false) {
      ReaderIndifferent(v.cores[d], 1);
    }
    assert Fetched(v, Fresh(), 1) == Reader();
    Fetches(cfg, v, c, 1);
  }

  /** Who has not written a block does not mind readers. */
  lemma ReaderIndifferent(k: Core, a: Addr)
    requires a !in k.writeVals && a !in k.writable
    ensures Indifferent(k, a, false)
  {
    assert k.writable - {a} == k.writable;
  }

  lemma ThreeUpdates(x: Core, y: Core, n: Core, k: Core)
    ensures [x, y, n][0 := k] == [k, y, n] && [x, y, n][1 := k] == [x, k, n] && [x, y, n][2 := k] == [x, y, k]
  {
  }

  lemma ReadersStart(cfg: Config)
    ensures Reach(cfg, Start([Reader(), Writer(0), Reader()]))
  {
    var f := Fresh();
    AllBegin(cfg, 3);
    assert Begun(3, 3) == [f, f, f];
    UntouchedIndifferent(f, 0, true);
    Claims(cfg, Start([f, f, f]), 1, 0);
    ThreeUpdates(f, f, f, Writer(0));
    ThreeUpdates(f, Writer(0), f, Reader());
    ReaderFetches(cfg, Start([f, Writer(0), f]), 0, [Reader(), Writer(0), f]);
    ThreeUpdates(Reader(), Writer(0), f, Reader());
    ReaderFetches(cfg, Start([Reader(), Writer(0), f]), 2, [Reader(), Writer(0), Reader()]);
  }

  /** A core that has never touched block `a`. */
  predicate Untouched(k: Core, a: Addr) {
    a !in k.granted && a !in k.writeVals && a !in k.readable && a !in k.writable
  }

  lemma UntouchedIndifferent(k: Core, a: Addr, exclusive: bool)
    requires Untouched(k, a)
    ensures Indifferent(k, a, exclusive)
  {
    assert k.readable - {a} == k.readable && k.writable - {a} == k.writable;
  }

  /** The requests of cores 0 and 1 for each other's block. */
  function ReadersLines(r: Request): map<Addr, Request> {
    map[0 := Asking(0, {1, 2}, []), 1 := r]
  }

  lemma ReadersAsk(cfg: Config)
    ensures Reach(cfg, View([Reader(), Writer(0), Reader()], ReadersLines(Asking(1, {0, 2}, [])), map[], []))
  {
    var cores := [Reader(), Writer(0), Reader()];
    ReadersStart(cfg);
    Asks(cfg, Start(cores), 0, 0, true);
    assert CoreIds(3) - {0} == {1, 2} && CoreIds(3) - {1} == {0, 2};
    var v := Start(cores).(lines := map[0 := Asking(0, {1, 2}, [])]);
    Asks(cfg, v, 1, 1, true);
    assert v.lines[1 := Asking(1, {0, 2}, [])] == ReadersLines(Asking(1, {0, 2}, []));
  }

  function ReadersNack(cfg: Config, c: nat): Reply {
    Nack(TxId(c, 1), CrossPrio(cfg), false, Some(0), 0)
  }

  function ReadersAnswer(cfg: Config): Request {
    Asking(1, {}, [ReadersNack(cfg, 2), ReadersNack(cfg, 0)])
  }

  lemma ReaderOffers(cfg: Config, c: nat)
    requires Stalling(cfg) && !cfg.allowed.OnlyWritten? && (c == 0 || c == 2)
    ensures OffersAs(cfg, Reader(), c, 1, Asking(1, {0, 2}, []), ReaderSent(cfg, c))
    ensures NackBy(cfg, ReaderSent(cfg, c), c, Some(0)) == ReadersNack(cfg, c)
  {
    FirstOffer(cfg, Reader(), c, 1, Asking(1, {0, 2}, []));
  }

  lemma ReadersOffer(cfg: Config)
    requires Stalling(cfg) && !cfg.allowed.OnlyWritten?
    ensures Reach(cfg, View([ReaderSent(cfg, 0), Writer(0), ReaderSent(cfg, 2)], ReadersLines(ReadersAnswer(cfg)), map[], []))
  {
    var v := View([Reader(), Writer(0), Reader()], ReadersLines(Asking(1, {0, 2}, [])), map[], []);
    var v' := View([ReaderSent(cfg, 0), Writer(0), ReaderSent(cfg, 2)], ReadersLines(ReadersAnswer(cfg)), map[], []);
    ReadersAsk(cfg);
    ReaderOffers(cfg, 0);
    ReaderOffers(cfg, 2);
    assert {0, 2} - {2} - {0} == {};
    assert v.lines[1 := ReadersAnswer(cfg)] == v'.lines;
    ThreeUpdates(Reader(), Writer(0), Reader(), ReaderSent(cfg, 2));
    ThreeUpdates(Reader(), Writer(0), ReaderSent(cfg, 2), ReaderSent(cfg, 0));
    TwoOffer(cfg, v, 1, 2, 0, 0, ReaderSent(cfg, 2), ReaderSent(cfg, 0), v');
  }

  lemma WriterOffers(cfg: Config)
    requires Stalling(cfg)
    ensures OffersAs(cfg, Writer(0), 1, 0, Asking(0, {1, 2}, []), WriterSent(cfg))
    ensures 0 in Writer(0).writeVals && Writer(0).writeVals[0] == 7
    ensures NackBy(cfg, WriterSent(cfg), 1, Some(7)) == CrossNack(cfg, 1)
  {
    FirstOffer(cfg, Writer(0), 1, 0, Asking(0, {1, 2}, []));
  }

  function WriterLines(cfg: Config): map<Addr, Request> {
    map[0 := Asking(0, {2}, [CrossNack(cfg, 1)]), 1 := ReadersAnswer(cfg)]
  }

  lemma WriterAnswers(cfg: Config)
    requires Stalling(cfg) && !cfg.allowed.OnlyWritten?
    ensures Reach(cfg, View([ReaderSent(cfg, 0), WriterSent(cfg), ReaderSent(cfg, 2)], WriterLines(cfg), map[], []))
  {
    var v := View([ReaderSent(cfg, 0), Writer(0), ReaderSent(cfg, 2)], ReadersLines(ReadersAnswer(cfg)), map[], []);
    var r' := Asking(0, {2}, [CrossNack(cfg, 1)]);
    ReadersOffer(cfg);
    WriterOffers(cfg);
    assert v.lines[0 := r'] == WriterLines(cfg);
    ThreeUpdates(ReaderSent(cfg, 0), Writer(0), ReaderSent(cfg, 2), WriterSent(cfg));
    OffersFirst(cfg, v, 0, 1, 2, Writer(0), WriterSent(cfg), 7, Asking(0, {1, 2}, []), r');
  }

  lemma ReaderTakes(cfg: Config)
    requires Stalling(cfg)
    ensures TakesAs(cfg, ReaderSent(cfg, 0), 0, 0, Asking(0, {2}, [CrossNack(cfg, 1)]), CrossNack(cfg, 1), ReaderTook(cfg))
  {
    FirstTaken(cfg, ReaderSent(cfg, 0), 0, 0, Asking(0, {2}, [CrossNack(cfg, 1)]), CrossNack(cfg, 1));
  }

  lemma ReaderWatches(cfg: Config)
    ensures Indifferent(ReaderSent(cfg, 2), 0, true) && WriterLines(cfg) - {0} == map[1 := ReadersAnswer(cfg)]
  {
    UntouchedIndifferent(ReaderSent(cfg, 2), 0, true);
  }

  lemma WriterGives(cfg: Config)
    requires Stalling(cfg) && !cfg.allowed.OnlyWritten?
    ensures Reach(cfg, View([ReaderTook(cfg), WriterSent(cfg), ReaderSent(cfg, 2)], map[1 := ReadersAnswer(cfg)], map[], []))
  {
    var v := View([ReaderSent(cfg, 0), WriterSent(cfg), ReaderSent(cfg, 2)], WriterLines(cfg), map[], []);
    WriterAnswers(cfg);
    ReaderTakes(cfg);
    ReaderWatches(cfg);
    ThreeUpdates(ReaderSent(cfg, 0), WriterSent(cfg), ReaderSent(cfg, 2), ReaderTook(cfg));
    TakesLast(cfg, v, 0, 2, ReaderSent(cfg, 0), ReaderTook(cfg), Asking(0, {2}, [CrossNack(cfg, 1)]), CrossNack(cfg, 1),
              map[1 := ReadersAnswer(cfg)]);
  }

  /** Core 1 is warned, but the nack of core 2 comes first and hides the older core 0. */
  lemma ReadersLock(cfg: Config)
    requires Stalling(cfg) && !cfg.allowed.OnlyWritten?
    ensures var cores := [ReaderTook(cfg), WriterTook(cfg), ReaderSent(cfg, 2)]; Reach(cfg, Start(cores)) && Locked(cores)
  {
    var cores := [ReaderTook(cfg), WriterTook(cfg), ReaderSent(cfg, 2)];
    var v := View([ReaderTook(cfg), WriterSent(cfg), ReaderSent(cfg, 2)], map[1 := ReadersAnswer(cfg)], map[], []);
    WriterGives(cfg);
    FirstTakenFromTwo(cfg, WriterSent(cfg), 1, 1, ReadersAnswer(cfg), ReadersNack(cfg, 2), ReadersNack(cfg, 0));
    assert v.lines - {1} == map[];
    ThreeUpdates(ReaderTook(cfg), WriterSent(cfg), ReaderSent(cfg, 2), WriterTook(cfg));
    TakesFromBoth(cfg, v, 1, ReadersNack(cfg, 2), ReadersNack(cfg, 0), WriterTook(cfg), Start(cores));
    MutualBy(cores, 0, 1);
  }

  // ---------- A consumer that may forward to two cores ----------

  /** Positions are numbers, and a consumer may forward to a second core. */
  predicate Fanned(cfg: Config) {
    Stalling(cfg) && cfg.numeric && TwoConsumers(cfg)
  }

  lemma Pledge(cfg: Config, v: View, a: Addr, c: nat, p: nat, kp: Core, r: Request) returns (v': View)
    requires Reach(cfg, v) && c < |v.cores| && p < |v.cores| && c != p && a !in v.lines
    requires v.cores[c].inTx && !v.cores[c].doomed && a !in v.cores[c].writable && r == ReqOf(v.cores, c, true)
    requires OffersAs(cfg, v.cores[p], p, a, r, kp) && a in v.cores[p].writeVals && v.cores[p].writeVals[a] == 7
    ensures Reach(cfg, v') && v'.cores == v.cores[p := kp] && v'.lines.Keys == v.lines.Keys + {a}
    ensures forall b | b in v.lines :: v'.lines[b] == v.lines[b]
  {
    v' := v.(cores := v.cores[p := kp], lines := v.lines[a := Replied(r, p, NackBy(cfg, kp, p, Some(7)))]);
    PledgesAs(cfg, v, a, c, p, 7, kp, v');
  }

  function A0(): Core { Writer(1) }
  function A1(): Core { A0().(prio := Num(0), sentTo := {1}) }
  function A2(): Core { A1().(consumed := Holding(0, 7, {TxId(1, 1)}), everConsumed := {TxId(1, 1)}) }

  function B0(): Core { Claimed(Writer(0), 2) }
  function B1(): Core { B0().(prio := Num(0), sentTo := {2}) }
  function B2(): Core { B1().(consumed := Holding(1, 7, {TxId(0, 1)}), everConsumed := {TxId(0, 1)}) }
  function B3(): Core { B2().(sentTo := {0, 2}, cycleFlag := true) }

  lemma ThreeClaim(cfg: Config, x: Core, y: Core, n: Core, c: nat, a: Addr, cores: seq<Core>)
    requires Reach(cfg, Start([x, y, n])) && c < 3 && [x, y, n][c].inTx && ![x, y, n][c].doomed
    requires a !in [x, y, n][c].consumed && a !in [x, y, n][c].writable
    requires forall d | 0 <= d < 3 && d != c :: Untouched([x, y, n][d], a)
    requires cores == [x, y, n][c := Claimed([x, y, n][c], a)]
    ensures Reach(cfg, Start(cores))
  {
    forall d | 0 <= d < 3 && d != c ensures Indifferent([x, y, n][d], a, true) {
      UntouchedIndifferent([x, y, n][d], a, true);
    }
    Claims(cfg, Start([x, y, n]), c, a);
  }

  lemma FannedStart(cfg: Config)
    ensures Reach(cfg, Start([A0(), B0(), Fresh()]))
  {
    var f := Fresh();
    AllBegin(cfg, 3);
    assert Begun(3, 3) == [f, f, f];
    ThreeUpdates(f, f, f, A0());
    ThreeClaim(cfg, f, f, f, 0, 1, [A0(), f, f]);
    ThreeUpdates(A0(), f, f, Writer(0));
    ThreeClaim(cfg, A0(), f, f, 1, 0, [A0(), Writer(0), f]);
    ThreeUpdates(A0(), Writer(0), f, B0());
    ThreeClaim(cfg, A0(), Writer(0), f, 1, 2, [A0(), B0(), f]);
  }

  lemma FannedAsk(cfg: Config)
    ensures Reach(cfg, View([A0(), B0(), Fresh()], map[0 := Asking(0, {1, 2}, []), 1 := Asking(1, {0, 2}, [])], map[], []))
  {
    var cores := [A0(), B0(), Fresh()];
    FannedStart(cfg);
    Asks(cfg, Start(cores), 0, 0, true);
    assert CoreIds(3) - {0} == {1, 2} && CoreIds(3) - {1} == {0, 2};
    var v := Start(cores).(lines := map[0 := Asking(0, {1, 2}, [])]);
    Asks(cfg, v, 1, 1, true);
    assert v.lines[1 := Asking(1, {0, 2}, [])] == map[0 := Asking(0, {1, 2}, []), 1 := Asking(1, {0, 2}, [])];
  }

  lemma FannedPromises(cfg: Config)
    requires Fanned(cfg)
    ensures OffersAs(cfg, B0(), 1, 2, Asking(2, {0, 1}, []), B1())
    ensures 2 in B0().writeVals && B0().writeVals[2] == 7 && Fresh().inTx && !Fresh().doomed
    ensures ReqOf([A0(), B0(), Fresh()], 2, true) == Asking(2, {0, 1}, [])
  {
    FirstOffer(cfg, B0(), 1, 2, Asking(2, {0, 1}, []));
    assert CoreIds(3) - {2} == {0, 1};
  }

  lemma FannedOffers(cfg: Config)
    requires Fanned(cfg)
    ensures OffersAs(cfg, A0(), 0, 1, Asking(1, {0, 2}, []), A1())
  {
    FirstOffer(cfg, A0(), 0, 1, Asking(1, {0, 2}, []));
  }

  /** The requests of cores 1 and 0 once they are answered. */
  function FannedFirst(): Request { Asking(1, {2}, [Nack(TxId(0, 1), Num(0), false, Some(7), 0)]) }
  function FannedSecond(): Request { Asking(0, {2}, [Nack(TxId(1, 1), Num(0), false, Some(7), 0)]) }

  lemma FannedTakes(cfg: Config)
    requires Fanned(cfg)
    ensures TakesAs(cfg, B1(), 1, 1, FannedFirst(), FannedFirst().replies[0], B2())
    ensures TakesAs(cfg, A1(), 0, 0, FannedSecond(), FannedSecond().replies[0], A2())
  {
    FirstTaken(cfg, B1(), 1, 1, FannedFirst(), FannedFirst().replies[0]);
    FirstTaken(cfg, A1(), 0, 0, FannedSecond(), FannedSecond().replies[0]);
  }

  /** The consumer forwards to a second core, which asked when it had no position. */
  lemma FannedOffersOn(cfg: Config)
    requires Fanned(cfg)
    ensures OffersAs(cfg, B2(), 1, 0, Asking(0, {1, 2}, []), B3())
  {
    StallingMeans(cfg);
    assert 1 in B2().consumed.Keys;
    assert B2().sentTo + {0} == {0, 2} && |B2().sentTo| == 1;
  }

  lemma FannedPledge(cfg: Config) returns (v: View)
    requires Fanned(cfg)
    ensures Reach(cfg, v) && v.cores == [A0(), B1(), Fresh()] && v.lines.Keys == {0, 1, 2}
    ensures v.lines[0] == Asking(0, {1, 2}, []) && v.lines[1] == Asking(1, {0, 2}, [])
  {
    FannedAsk(cfg);
    v := View([A0(), B0(), Fresh()], map[0 := Asking(0, {1, 2}, []), 1 := Asking(1, {0, 2}, [])], map[], []);
    FannedPromises(cfg);
    ThreeUpdates(A0(), B0(), Fresh(), B1());
    v := Pledge(cfg, v, 2, 2, 1, B1(), Asking(2, {0, 1}, []));
  }

  lemma FannedAnswers(cfg: Config) returns (v: View)
    requires Fanned(cfg)
    ensures Reach(cfg, v) && v.cores == [A1(), B1(), Fresh()] && v.lines.Keys == {0, 1, 2}
    ensures v.lines[0] == Asking(0, {1, 2}, []) && v.lines[1] == FannedFirst()
  {
    v := FannedPledge(cfg);
    FannedOffers(cfg);
    ThreeUpdates(A0(), B1(), Fresh(), A1());
    OffersFirst(cfg, v, 1, 0, 2, A0(), A1(), 7, Asking(1, {0, 2}, []), FannedFirst());
    v := v.(cores := [A1(), B1(), Fresh()], lines := v.lines[1 := FannedFirst()]);
  }

  lemma FannedGives(cfg: Config) returns (v: View)
    requires Fanned(cfg)
    ensures Reach(cfg, v) && v.cores == [A1(), B2(), Fresh()] && 0 in v.lines && v.lines[0] == Asking(0, {1, 2}, [])
  {
    v := FannedAnswers(cfg);
    FannedTakes(cfg);
    UntouchedIndifferent(Fresh(), 1, true);
    ThreeUpdates(A1(), B1(), Fresh(), B2());
    TakesLast(cfg, v, 1, 2, B1(), B2(), FannedFirst(), FannedFirst().replies[0], v.lines - {1});
    v := v.(cores := [A1(), B2(), Fresh()], lines := v.lines - {1});
  }

  lemma FannedAnswersOn(cfg: Config) returns (v: View)
    requires Fanned(cfg)
    ensures Reach(cfg, v) && v.cores == [A1(), B3(), Fresh()] && 0 in v.lines && v.lines[0] == FannedSecond()
  {
    v := FannedGives(cfg);
    FannedOffersOn(cfg);
    ThreeUpdates(A1(), B2(), Fresh(), B3());
    OffersFirst(cfg, v, 0, 1, 2, B2(), B3(), 7, Asking(0, {1, 2}, []), FannedSecond());
    v := v.(cores := [A1(), B3(), Fresh()], lines := v.lines[0 := FannedSecond()]);
  }

  lemma FannedLocks(cfg: Config) returns (v: View)
    requires Fanned(cfg)
    ensures Reach(cfg, v) && Locked(v.cores)
  {
    v := FannedAnswersOn(cfg);
    FannedTakes(cfg);
    UntouchedIndifferent(Fresh(), 0, true);
    ThreeUpdates(A1(), B3(), Fresh(), A2());
    TakesLast(cfg, v, 0, 2, A1(), A2(), FannedSecond(), FannedSecond().replies[0], v.lines - {0});
    v := v.(cores := [A2(), B3(), Fresh()], lines := v.lines - {0});
    MutualBy(v.cores, 0, 1);
  }
}
