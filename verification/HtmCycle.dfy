/** Outside the safe configurations two transactions can each wait for the other: both
    write a block, both request the other's, and both requests are answered with data
    before either answer arrives. */
module HtmCycle {
  import opened Basics
  import opened Graphs
  import opened HtmConfig
  import opened HtmModel
  import opened HtmChains
  import opened HtmRuns

  /** Cores 0 and 1 wait for each other. */
  predicate Mutual(cores: seq<Core>) {
    && |cores| >= 2 && cores[0].inTx && cores[1].inTx
    && TxId(1, cores[1].uid) in ProducersOf(cores[0]) && TxId(0, cores[0].uid) in ProducersOf(cores[1])
  }

  lemma MutualIsCycle(s: State)
    requires Mutual(s.cores)
    ensures IsCycle(Dependencies(s), [0, 1, 0])
  {
    assert DependsOn(s, 0, 1) && DependsOn(s, 1, 0);
    assert EdgeAt(Dependencies(s), [0, 1, 0], 0) && EdgeAt(Dependencies(s), [0, 1, 0], 1);
  }

  lemma ReachedMutual(cfg: Config, v: View) returns (steps: seq<Step>)
    requires Reach(cfg, v) && Mutual(v.cores)
    ensures Run(cfg, |v.cores|, steps).Some? && Run(cfg, |v.cores|, steps).value.cores == v.cores
    ensures IsCycle(Dependencies(Run(cfg, |v.cores|, steps).value), [0, 1, 0])
  {
    steps :| Gets(cfg, steps, v);
    MutualIsCycle(Run(cfg, |v.cores|, steps).value);
  }

  /** A configuration outside the safe ones that the simulator accepts. */
  predicate Unsafe(cfg: Config) {
    ValidConfig(cfg) && !SafeConfig(cfg)
  }

  lemma BothWrite(cfg: Config)
    ensures Reach(cfg, Start([Writer(0), Writer(1)]))
  {
    AllBegin(cfg, 2);
    assert Begun(2, 2) == [Fresh(), Fresh()];
    Claims(cfg, Start([Fresh(), Fresh()]), 0, 0);
    assert [Fresh(), Fresh()][0 := Writer(0)] == [Writer(0), Fresh()];
    assert Yield(Writer(0), 1, true) == Writer(0);
    Claims(cfg, Start([Writer(0), Fresh()]), 1, 1);
    assert [Writer(0), Fresh()][1 := Writer(1)] == [Writer(0), Writer(1)];
  }

  function CrossPrio(cfg: Config): Prio {
    if cfg.numeric then Num(0) else NC
  }

  /** The writer of its own block after it forwarded that block to the other core. */
  function Sender(cfg: Config, c: nat): Core
    requires c < 2
  {
    Writer(c).(prio := CrossPrio(cfg), sentTo := {1 - c}, cycleFlag := cfg.policy.RequesterStalls? && c == 1)
  }

  function CrossNack(cfg: Config, c: nat): Reply {
    Nack(TxId(c, 1), CrossPrio(cfg), false, Some(7), 0)
  }

  lemma BothAsk(cfg: Config)
    ensures Reach(cfg, View([Writer(0), Writer(1)], map[1 := Asking(0, {1}, []), 0 := Asking(1, {0}, [])], map[], []))
  {
    var cores := [Writer(0), Writer(1)];
    BothWrite(cfg);
    assert CoreIds(2) - {0} == {1} && CoreIds(2) - {1} == {0};
    Asks(cfg, Start(cores), 0, 1, true);
    assert ReqOf(cores, 0, true) == Asking(0, {1}, []) && ReqOf(cores, 1, true) == Asking(1, {0}, []);
    Asks(cfg, View(cores, map[1 := Asking(0, {1}, [])], map[], []), 1, 0, true);
    assert map[1 := Asking(0, {1}, [])][0 := Asking(1, {0}, [])] == map[1 := Asking(0, {1}, []), 0 := Asking(1, {0}, [])];
  }

  lemma WinsConflict(cfg: Config, p: nat)
    requires Unsafe(cfg) && p < 2
    ensures CanOffer(cfg, Writer(p), p, Asking(1 - p, {p}, []))
  {
    assert p in Writer(p).granted;
  }

  lemma BecomesSender(cfg: Config, p: nat)
    requires p < 2
    ensures Offered(cfg, Writer(p), p, Asking(1 - p, {p}, [])) == Sender(cfg, p)
    ensures NackBy(cfg, Sender(cfg, p), p, Some(7)) == CrossNack(cfg, p)
  {
    assert Writer(p).sentTo + {1 - p} == {1 - p};
  }

  lemma AnsweredWithData(cfg: Config, p: nat)
    requires p < 2
    ensures Replied(Asking(1 - p, {p}, []), p, CrossNack(cfg, p)) == Asking(1 - p, {}, [CrossNack(cfg, p)])
  {
    assert {p} - {p} == {} && [] + [CrossNack(cfg, p)] == [CrossNack(cfg, p)];
  }

  lemma Wins(cfg: Config, p: nat)
    requires Unsafe(cfg) && p < 2
    ensures var r := Asking(1 - p, {p}, []);
            && CanOffer(cfg, Writer(p), p, r) && Offered(cfg, Writer(p), p, r) == Sender(cfg, p)
            && NackBy(cfg, Sender(cfg, p), p, Some(7)) == CrossNack(cfg, p)
            && Replied(r, p, CrossNack(cfg, p)) == Asking(1 - p, {}, [CrossNack(cfg, p)])
  {
    WinsConflict(cfg, p);
    BecomesSender(cfg, p);
    AnsweredWithData(cfg, p);
  }

  lemma BothOffer(cfg: Config)
    requires Unsafe(cfg)
    ensures Reach(cfg, View([Sender(cfg, 0), Sender(cfg, 1)],
                            map[1 := Asking(0, {}, [CrossNack(cfg, 1)]), 0 := Asking(1, {}, [CrossNack(cfg, 0)])], map[], []))
  {
    BothAsk(cfg);
    Wins(cfg, 0);
    Wins(cfg, 1);
    var lines := map[1 := Asking(0, {1}, []), 0 := Asking(1, {0}, [])];
    Offers(cfg, View([Writer(0), Writer(1)], lines, map[], []), 1, 1);
    var lines1 := map[1 := Asking(0, {}, [CrossNack(cfg, 1)]), 0 := Asking(1, {0}, [])];
    assert [Writer(0), Writer(1)][1 := Sender(cfg, 1)] == [Writer(0), Sender(cfg, 1)];
    assert lines[1 := Asking(0, {}, [CrossNack(cfg, 1)])] == lines1;
    Offers(cfg, View([Writer(0), Sender(cfg, 1)], lines1, map[], []), 0, 0);
    assert [Writer(0), Sender(cfg, 1)][0 := Sender(cfg, 0)] == [Sender(cfg, 0), Sender(cfg, 1)];
    assert lines1[0 := Asking(1, {}, [CrossNack(cfg, 0)])]
        == map[1 := Asking(0, {}, [CrossNack(cfg, 1)]), 0 := Asking(1, {}, [CrossNack(cfg, 0)])];
  }

  /** The sender after it has also consumed the other core's block. Under the stalling
      policy the younger of the two has nacked the older one and is doomed. */
  function Crossed(cfg: Config, c: nat): Core
    requires c < 2
  {
    Sender(cfg, c).(consumed := map[1 - c := Forwarded(7, {TxId(1 - c, 1)})], everConsumed := {TxId(1 - c, 1)},
                    doomed := 1 > cfg.maxConsumedBlocks || (cfg.policy.RequesterStalls? && c == 1))
  }

  lemma Accepts(cfg: Config, c: nat)
    requires Unsafe(cfg) && c < 2
    ensures var k, n := Sender(cfg, c), CrossNack(cfg, 1 - c);
            var m := Merged(n.prio, false, n.data, 0, 1 - c);
            && !IsIllegal(cfg, k, n.prio) && ShouldAccept(cfg, k)
            && Consumed(cfg, k, 1 - c, m, {TxId(1 - c, 1)}, Suspect(cfg, k, c, m)) == Crossed(cfg, c)
  {
    assert (map[1 - c := Forwarded(7, {TxId(1 - c, 1)})]).Keys == {1 - c};
  }

  lemma OneAccepts(cfg: Config)
    requires Unsafe(cfg)
    ensures Reach(cfg, View([Crossed(cfg, 0), Sender(cfg, 1)], map[0 := Asking(1, {}, [CrossNack(cfg, 0)])], map[], []))
  {
    BothOffer(cfg);
    Accepts(cfg, 0);
    var lines := map[1 := Asking(0, {}, [CrossNack(cfg, 1)]), 0 := Asking(1, {}, [CrossNack(cfg, 0)])];
    TakesOffer(cfg, View([Sender(cfg, 0), Sender(cfg, 1)], lines, map[], []), 1, CrossNack(cfg, 1));
    assert lines - {1} == map[0 := Asking(1, {}, [CrossNack(cfg, 0)])];
    assert [Sender(cfg, 0), Sender(cfg, 1)][0 := Crossed(cfg, 0)] == [Crossed(cfg, 0), Sender(cfg, 1)];
  }

  /** Both transactions write, both ask, both answer, both accept. */
  lemma Crossing(cfg: Config)
    requires Unsafe(cfg)
    ensures Reach(cfg, Start([Crossed(cfg, 0), Crossed(cfg, 1)]))
  {
    OneAccepts(cfg);
    Accepts(cfg, 1);
    var lines := map[0 := Asking(1, {}, [CrossNack(cfg, 0)])];
    TakesOffer(cfg, View([Crossed(cfg, 0), Sender(cfg, 1)], lines, map[], []), 0, CrossNack(cfg, 0));
    assert lines - {0} == map[];
    assert [Crossed(cfg, 0), Sender(cfg, 1)][1 := Crossed(cfg, 1)] == [Crossed(cfg, 0), Crossed(cfg, 1)];
  }

  /** The two transactions wait for each other. Unless requests are stalled, neither is
      doomed if one block may be consumed at all. */
  lemma UnsafeHasCycle(cfg: Config) returns (steps: seq<Step>)
    requires Unsafe(cfg)
    ensures Run(cfg, 2, steps).Some?
    ensures var s := Run(cfg, 2, steps).value;
            && IsCycle(Dependencies(s), [0, 1, 0])
            && |s.cores| == 2
            && (!cfg.policy.RequesterStalls? && cfg.maxConsumedBlocks >= 1 ==>
                  !s.cores[0].doomed && !s.cores[1].doomed)
  {
    Crossing(cfg);
    var v := Start([Crossed(cfg, 0), Crossed(cfg, 1)]);
    assert 1 in v.cores[0].consumed && TxId(1, 1) in v.cores[0].consumed[1].producers;
    assert 0 in v.cores[1].consumed && TxId(0, 1) in v.cores[1].consumed[0].producers;
    steps := ReachedMutual(cfg, v);
  }
}
