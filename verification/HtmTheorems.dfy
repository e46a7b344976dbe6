/** What the invariants give for whole runs: cycles, chain heads, depth and fan-out. */
module HtmTheorems {
  import opened Graphs
  import opened HtmConfig
  import opened HtmModel
  import opened HtmChains
  import opened HtmAcyclic
  import HtmCycle
  import HtmDeadlock
  import HtmRuns
  import HtmStalls

  /** Main result: a configuration keeps every forwarding graph of every run acyclic
      exactly if it is safe. Doomed transactions count as waiting until they abort. */
  lemma AcyclicExactlyWhenSafe(cfg: Config)
    requires ValidConfig(cfg)
    ensures SafeConfig(cfg) <==>
            forall n: nat, steps: seq<Step> | Run(cfg, n, steps).Some? ::
              Acyclic(Dependencies(Run(cfg, n, steps).value))
  {
    if SafeConfig(cfg) {
      forall n: nat, steps: seq<Step> | Run(cfg, n, steps).Some?
        ensures Acyclic(Dependencies(Run(cfg, n, steps).value))
      {
        SafeInvAlways(cfg, n, steps);
        SafeIsAcyclic(cfg, Run(cfg, n, steps).value);
      }
    } else {
      var steps := HtmCycle.UnsafeHasCycle(cfg);
      assert !Acyclic(Dependencies(Run(cfg, 2, steps).value));
    }
  }

  // ---------- Cycles that no abort breaks ----------

  predicate BlocksInv(cfg: Config, s: State) {
    forall c | 0 <= c < |s.cores| && !s.cores[c].doomed :: |s.cores[c].consumed.Keys| <= cfg.maxConsumedBlocks
  }

  lemma BlocksCalm(cfg: Config, s: State, s': State, c: nat)
    requires BlocksInv(cfg, s) && CalmStep(s, s', c)
    ensures BlocksInv(cfg, s')
  {
    var k, k' := s.cores[c], s'.cores[c];
    if k'.inTx && k'.uid == k.uid {
      SubsetCount(k'.consumed.Keys, k.consumed.Keys);
    } else {
      assert k'.consumed.Keys == {};
    }
  }

  lemma BlocksConsume(cfg: Config, s: State, s': State, e: Step)
    requires BlocksInv(cfg, s) && ConsumeStep(cfg, s, s', e)
    ensures BlocksInv(cfg, s')
  {
    var k, k' := s.cores[s.lines[e.addr].core], s'.cores[s.lines[e.addr].core];
    if e.addr in k.consumed {
      assert k'.consumed.Keys == k.consumed.Keys;
    }
  }

  lemma BlocksRespond(cfg: Config, s: State, e: Step)
    requires BlocksInv(cfg, s) && e.Respond? && Enabled(cfg, s, e)
    ensures BlocksInv(cfg, Next(cfg, s, e))
  {
    AnswerShape(cfg, s, e.addr, e.core, e.hasLine, e.writeInFlight);
    assert s.cores[e.core].doomed ==> Next(cfg, s, e).cores[e.core].doomed;
  }

  lemma BlocksStep(cfg: Config, s: State, e: Step)
    requires ChainInv(s) && BlocksInv(cfg, s) && Enabled(cfg, s, e)
    ensures BlocksInv(cfg, Next(cfg, s, e))
  {
    match e
    case Issue(_, _, _) =>
    case Store(_, _, _) =>
    case Respond(_, _, _, _) => BlocksRespond(cfg, s, e);
    case Deliver(a, _, _) =>
      DeliverShape(cfg, s, e);
      var s', r := Next(cfg, s, e), s.lines[a];
      if ConsumeStep(cfg, s, s', e) {
        BlocksConsume(cfg, s, s', e);
      } else if CalmStep(s, s', r.core) {
        BlocksCalm(cfg, s, s', r.core);
      }
    case _ =>
      CalmLocal(cfg, s, e);
      BlocksCalm(cfg, s, Next(cfg, s, e), e.core);
  }

  /** A transaction that is not doomed holds no more unvalidated blocks than allowed. */
  lemma {:induction false} BlocksBounded(cfg: Config, n: nat, steps: seq<Step>)
    requires Run(cfg, n, steps).Some?
    ensures BlocksInv(cfg, Run(cfg, n, steps).value)
  {
    if steps != [] {
      var before := steps[..|steps| - 1];
      BlocksBounded(cfg, n, before);
      ChainInvAlways(cfg, n, before);
      BlocksStep(cfg, Run(cfg, n, before).value, steps[|steps| - 1]);
    }
  }

  /** The configurations in which transactions can wait for each other with none of them
      doomed. Under the stalling policy the age test breaks every cycle unless readers
      forward, or a consumer can forward to a core it has not forwarded to before. */
  predicate CanDeadlock(cfg: Config) {
    && !SafeConfig(cfg) && cfg.maxConsumedBlocks >= 1
    && (cfg.policy.RequesterStalls? ==>
          !cfg.allowed.OnlyWritten? || cfg.fwd.Naive? || (cfg.numeric && TwoConsumers(cfg)))
  }

  ghost predicate Deadlocks(cfg: Config, n: nat, steps: seq<Step>, p: seq<nat>) {
    Run(cfg, n, steps).Some? && HtmStalls.Deadlock(Run(cfg, n, steps).value, p)
  }

  lemma WaitingConsumes(s: State, p: seq<nat>)
    requires HtmStalls.Deadlock(s, p)
    ensures p[0] < |s.cores| && !s.cores[p[0]].doomed && |s.cores[p[0]].consumed.Keys| >= 1
  {
    assert EdgeAt(Dependencies(s), p, 0);
    assert ProducersOf(s.cores[p[0]]) != {};
    assert s.cores[p[0]].consumed.Keys != {};
  }

  lemma NeverDeadlocks(cfg: Config, n: nat, steps: seq<Step>, p: seq<nat>)
    requires ValidConfig(cfg) && !CanDeadlock(cfg)
    ensures !Deadlocks(cfg, n, steps, p)
  {
    if Deadlocks(cfg, n, steps, p) {
      var s := Run(cfg, n, steps).value;
      if SafeConfig(cfg) {
        SafeInvAlways(cfg, n, steps);
        SafeIsAcyclic(cfg, s);
      } else if cfg.maxConsumedBlocks == 0 {
        BlocksBounded(cfg, n, steps);
        WaitingConsumes(s, p);
      } else {
        HtmStalls.StallInvAlways(cfg, n, steps);
        HtmStalls.NoDeadlock(cfg, s, p);
      }
      assert false;
    }
  }

  lemma LockedDeadlocks(cfg: Config, v: HtmRuns.View)
    requires HtmRuns.Reach(cfg, v) && HtmDeadlock.Locked(v.cores)
    ensures exists n: nat, steps, p :: Deadlocks(cfg, n, steps, p)
  {
    var steps :| HtmRuns.Gets(cfg, steps, v);
    var s := Run(cfg, |v.cores|, steps).value;
    HtmCycle.MutualIsCycle(s);
    assert Deadlocks(cfg, |v.cores|, steps, [0, 1, 0]);
  }

  lemma StallingDeadlocks(cfg: Config)
    requires HtmDeadlock.Stalling(cfg) && CanDeadlock(cfg)
    ensures exists n: nat, steps, p :: Deadlocks(cfg, n, steps, p)
  {
    if !cfg.allowed.OnlyWritten? {
      HtmDeadlock.ReadersLock(cfg);
      LockedDeadlocks(cfg, HtmRuns.Start([HtmDeadlock.ReaderTook(cfg), HtmDeadlock.WriterTook(cfg), HtmDeadlock.ReaderSent(cfg, 2)]));
    } else if cfg.fwd.Naive? {
      HtmDeadlock.NaiveLocks(cfg);
      LockedDeadlocks(cfg, HtmRuns.Start([HtmDeadlock.NaiveOlder(cfg), HtmDeadlock.NaiveSender()]));
    } else {
      var v := HtmDeadlock.FannedLocks(cfg);
      LockedDeadlocks(cfg, v);
    }
  }

  /** Main result: when transactions can wait for each other with none of them doomed. */
  lemma DeadlockExactly(cfg: Config)
    requires ValidConfig(cfg)
    ensures CanDeadlock(cfg) <==> exists n: nat, steps, p :: Deadlocks(cfg, n, steps, p)
  {
    if !CanDeadlock(cfg) {
      forall n: nat, steps, p ensures !Deadlocks(cfg, n, steps, p) {
        NeverDeadlocks(cfg, n, steps, p);
      }
    } else if cfg.policy.RequesterStalls? {
      StallingDeadlocks(cfg);
    } else {
      var steps := HtmCycle.UnsafeHasCycle(cfg);
      assert Deadlocks(cfg, 2, steps, [0, 1, 0]);
    }
  }

  // ---------- Every chain has a head ----------

  ghost predicate IsHead(s: State, c: nat) {
    forall p :: !DependsOn(s, c, p)
  }

  /** Extends a chain upwards until its last transaction waits for nobody. */
  lemma Climb(s: State, p: seq<nat>) returns (chain: seq<nat>)
    requires Acyclic(Dependencies(s)) && IsPath(Dependencies(s), p) && Within(p, CoreIds(|s.cores|))
    ensures IsPath(Dependencies(s), chain) && p <= chain && IsHead(s, chain[|chain| - 1])
    decreases |CoreIds(|s.cores|)| + 1 - |p|
  {
    if |p| > |CoreIds(|s.cores|)| {
      var cycle := LongPathHasCycle(Dependencies(s), p, CoreIds(|s.cores|));
      assert false;
    }
    var last := p[|p| - 1];
    if IsHead(s, last) {
      chain := p;
    } else {
      var q :| DependsOn(s, last, q);
      var p' := p + [q];
      forall i | 0 <= i < |p'| - 1 ensures EdgeAt(Dependencies(s), p', i) {
        if i < |p| - 1 {
          assert EdgeAt(Dependencies(s), p, i);
        }
      }
      chain := Climb(s, p');
    }
  }

  /** In a safe configuration every transaction's chain ends in one that waits for
      nobody. */
  lemma EveryChainHasAHead(cfg: Config, n: nat, steps: seq<Step>, c: nat) returns (chain: seq<nat>)
    requires ValidConfig(cfg) && SafeConfig(cfg) && Run(cfg, n, steps).Some? && c < n
    ensures var s := Run(cfg, n, steps).value;
            IsPath(Dependencies(s), chain) && chain[0] == c && IsHead(s, chain[|chain| - 1])
  {
    var s := Run(cfg, n, steps).value;
    SafeInvAlways(cfg, n, steps);
    SafeIsAcyclic(cfg, s);
    CoreCount(cfg, n, steps);
    chain := Climb(s, [c]);
  }

  // ---------- Depth of the bounded mechanism ----------

  /** A consumer that is not doomed passed the depth test at its present position. */
  predicate DepthInv(cfg: Config, s: State) {
    forall c | 0 <= c < |s.cores| && s.cores[c].consumed.Keys != {} && !s.cores[c].doomed ::
      !TooDeep(cfg, s.cores[c].prio)
  }

  lemma DepthStep(cfg: Config, s: State, e: Step)
    requires ChainInv(s) && DepthInv(cfg, s) && Enabled(cfg, s, e)
    ensures DepthInv(cfg, Next(cfg, s, e))
  {
    match e
    case Issue(_, _, _) =>
    case Store(_, _, _) =>
    case Respond(a, p, hasLine, writeInFlight) => AnswerShape(cfg, s, a, p, hasLine, writeInFlight);
    case Deliver(_, _, _) => DepthDeliver(cfg, s, e);
    case _ => DepthLocal(cfg, s, e);
  }

  lemma DepthDeliver(cfg: Config, s: State, e: Step)
    requires ChainInv(s) && DepthInv(cfg, s) && e.Deliver? && Enabled(cfg, s, e)
    ensures DepthInv(cfg, Next(cfg, s, e))
  {
    DeliverShape(cfg, s, e);
  }

  lemma DepthLocal(cfg: Config, s: State, e: Step)
    requires ChainInv(s) && DepthInv(cfg, s) && Enabled(cfg, s, e)
    requires !e.Issue? && !e.Respond? && !e.Deliver? && !e.Store?
    ensures DepthInv(cfg, Next(cfg, s, e))
  {
  }

  lemma {:induction false} DepthInvAlways(cfg: Config, n: nat, steps: seq<Step>)
    requires Run(cfg, n, steps).Some?
    ensures DepthInv(cfg, Run(cfg, n, steps).value)
  {
    if steps != [] {
      var before := steps[..|steps| - 1];
      DepthInvAlways(cfg, n, before);
      ChainInvAlways(cfg, n, before);
      DepthStep(cfg, Run(cfg, n, before).value, steps[|steps| - 1]);
    }
  }

  /** From a member with a number on, positions rise by at least one from link to link. */
  lemma {:induction false} PositionsSpread(cfg: Config, s: State, p: seq<nat>, j: nat, i: nat)
    requires RankInv(cfg, s) && IsPath(Dependencies(s), p) && j <= i < |p| - 1
    requires p[j] < |s.cores| && s.cores[p[j]].prio.Num?
    ensures p[i] < |s.cores| && s.cores[p[i]].consumed.Keys != {} && s.cores[p[i]].prio.Num?
    ensures s.cores[p[i]].prio.n >= s.cores[p[j]].prio.n + (i - j)
  {
    assert EdgeAt(Dependencies(s), p, i);
    assert ProducersOf(s.cores[p[i]]) != {};
    if i > j {
      PositionsSpread(cfg, s, p, j, i - 1);
      assert EdgeAt(Dependencies(s), p, i - 1);
      assert Live(s, TxId(p[i], s.cores[p[i]].uid));
    }
  }

  /** Only the first member of a chain can be without a number, and only under the stalling
      policy, where consuming gives no number. */
  lemma NumbersFrom(cfg: Config, s: State, p: seq<nat>, j: nat)
    requires RankInv(cfg, s) && IsPath(Dependencies(s), p) && j < |p| - 1
    requires j == (if cfg.policy.RequesterStalls? then 1 else 0)
    ensures p[j] < |s.cores| && s.cores[p[j]].prio.Num?
  {
    assert EdgeAt(Dependencies(s), p, j);
    assert ProducersOf(s.cores[p[j]]) != {};
    if j == 1 {
      assert EdgeAt(Dependencies(s), p, 0);
      assert Live(s, TxId(p[1], s.cores[p[1]].uid));
    }
  }

  /** With depth limit D and ranked positions the chains of transactions that are not doomed
      have at most 2D + 2 members: positions run from -D to D, and the head may stand above.
      Under the stalling policy one member without a number may come before them. */
  lemma ChainsAreBounded(cfg: Config, n: nat, steps: seq<Step>, p: seq<nat>)
    requires ValidConfig(cfg) && cfg.fwd.WXDX? && Ranked(cfg)
    requires Run(cfg, n, steps).Some?
    requires var s := Run(cfg, n, steps).value;
             IsPath(Dependencies(s), p) && forall i | 0 <= i < |p| :: p[i] < |s.cores| && !s.cores[p[i]].doomed
    ensures |p| <= 2 * cfg.maxPrioDiff + if cfg.policy.RequesterStalls? then 3 else 2
  {
    var s := Run(cfg, n, steps).value;
    SafeInvAlways(cfg, n, steps);
    DepthInvAlways(cfg, n, steps);
    var j := if cfg.policy.RequesterStalls? then 1 else 0;
    if j < |p| - 1 {
      NumbersFrom(cfg, s, p, j);
      PositionsSpread(cfg, s, p, j, j);
      PositionsSpread(cfg, s, p, j, |p| - 2);
    }
  }

  // ---------- Fan-out ----------

  /** The most consumers a transaction outside power mode may have at a time. */
  function FanOut(cfg: Config, cores: nat): nat {
    match cfg.fwd
    case NoFwd => 0
    case W1D1 => 1
    case W1DN => 1
    case WXDX => cfg.maxConsumers
    case _ => cores
  }

  predicate FanOutInv(cfg: Config, s: State) {
    && (forall c | 0 <= c < |s.cores| ::
          && s.cores[c].sentTo <= CoreIds(|s.cores|)
          && (!s.cores[c].power ==> |s.cores[c].sentTo| <= FanOut(cfg, |s.cores|)))
    && (forall a | a in s.lines :: s.lines[a].core < |s.cores|)
  }

  lemma CountIds(n: nat, S: set<nat>)
    requires S <= CoreIds(n)
    ensures |S| <= n
  {
    if n > 0 {
      CountIds(n - 1, S - {n - 1});
      if n - 1 in S {
        assert S == (S - {n - 1}) + {n - 1};
      } else {
        assert S == S - {n - 1};
      }
    }
  }

  lemma FanOutRespond(cfg: Config, s: State, e: Step)
    requires FanOutInv(cfg, s) && e.Respond? && Enabled(cfg, s, e)
    ensures FanOutInv(cfg, Next(cfg, s, e))
  {
    AnswerShape(cfg, s, e.addr, e.core, e.hasLine, e.writeInFlight);
    var k, k', r := s.cores[e.core], Next(cfg, s, e).cores[e.core], s.lines[e.addr];
    CountIds(|s.cores|, k'.sentTo);
    if r.core in k.sentTo {
      assert k.sentTo + {r.core} == k.sentTo;
    }
  }

  lemma FanOutReplace(cfg: Config, s: State, s': State, c: nat)
    requires FanOutInv(cfg, s) && c < |s.cores| == |s'.cores| && s'.cores == s.cores[c := s'.cores[c]]
    requires LinesShrink(s.lines, s'.lines)
    requires s'.cores[c].sentTo == {} || (s'.cores[c].sentTo == s.cores[c].sentTo && s'.cores[c].power == s.cores[c].power)
    ensures FanOutInv(cfg, s')
  {
  }

  lemma FanOutDeliver(cfg: Config, s: State, s': State, e: Step)
    requires ChainInv(s) && FanOutInv(cfg, s) && e.Deliver? && Enabled(cfg, s, e)
    requires s' == Next(cfg, s, e)
    ensures FanOutInv(cfg, s')
  {
    var r := s.lines[e.addr];
    DeliverShape(cfg, s, e);
    if RequestStep(s, s', r.core, e.addr, r.exclusive) {
    } else if CalmStep(s, s', r.core) {
      FanOutReplace(cfg, s, s', r.core);
    } else {
      var m := MergeReplies(e.order).value;
      ConsumedProducers(cfg, s.cores[r.core], e.addr, m, Nackers(r.replies), Suspect(cfg, s.cores[r.core], r.core, m));
      FanOutReplace(cfg, s, s', r.core);
    }
  }

  lemma FanOutStep(cfg: Config, s: State, e: Step)
    requires ChainInv(s) && FanOutInv(cfg, s) && Enabled(cfg, s, e)
    ensures FanOutInv(cfg, Next(cfg, s, e))
  {
    match e
    case Issue(_, _, _) =>
    case Store(_, _, _) =>
    case Respond(_, _, _, _) => FanOutRespond(cfg, s, e);
    case Deliver(_, _, _) => FanOutDeliver(cfg, s, Next(cfg, s, e), e);
    case _ => FanOutLocal(cfg, s, e);
  }

  lemma FanOutLocal(cfg: Config, s: State, e: Step)
    requires ChainInv(s) && FanOutInv(cfg, s) && Enabled(cfg, s, e)
    requires !e.Issue? && !e.Respond? && !e.Deliver? && !e.Store?
    ensures FanOutInv(cfg, Next(cfg, s, e))
  {
    CalmLocal(cfg, s, e);
    FanOutReplace(cfg, s, Next(cfg, s, e), e.core);
  }

  /** No transaction outside power mode forwards to more cores than its mechanism says. */
  lemma {:induction false} FanOutBounded(cfg: Config, n: nat, steps: seq<Step>)
    requires Run(cfg, n, steps).Some?
    ensures FanOutInv(cfg, Run(cfg, n, steps).value)
  {
    if steps != [] {
      var before := steps[..|steps| - 1];
      FanOutBounded(cfg, n, before);
      ChainInvAlways(cfg, n, before);
      FanOutStep(cfg, Run(cfg, n, before).value, steps[|steps| - 1]);
    }
  }

  // ---------- Positions stay within the simulator's integers ----------

  predicate Near(p: Prio, b: nat) {
    p.Num? ==> p.n <= b && -p.n <= b
  }

  predicate NearRequest(r: Request, b: nat) {
    Near(r.prio, b) && forall i | 0 <= i < |r.replies| && r.replies[i].Nack? :: Near(r.replies[i].prio, b)
  }

  predicate NearInv(s: State, b: nat) {
    && (forall c | 0 <= c < |s.cores| :: Near(s.cores[c].prio, b))
    && (forall a | a in s.lines :: NearRequest(s.lines[a], b))
  }

  lemma MergedNear(rs: seq<Reply>, b: nat)
    requires MergeReplies(rs).Some?
    requires forall n | n in rs && n.Nack? :: Near(n.prio, b)
    ensures Near(MergeReplies(rs).value.prio, b)
  {
  }

  lemma NearRespond(cfg: Config, s: State, e: Step, b: nat)
    requires NearInv(s, b) && e.Respond? && Enabled(cfg, s, e)
    ensures NearInv(Next(cfg, s, e), b + 1)
  {
    var s', r := Next(cfg, s, e), s.lines[e.addr];
    var (k', reply) := Answer(cfg, s, e.addr, e.core, e.hasLine, e.writeInFlight).value;
    AnswerShape(cfg, s, e.addr, e.core, e.hasLine, e.writeInFlight);
    NearAnswer(cfg, s.cores[e.core], r.prio, b);
    NearAnswered(s, s', e.core, k', e.addr, reply, b);
  }

  lemma NearAnswer(cfg: Config, k: Core, remote: Prio, b: nat)
    requires Near(k.prio, b) && Near(remote, b)
    ensures Near(PrioAfterSend(cfg, k, remote), b + 1)
  {
  }

  lemma NearAnswered(s: State, s': State, p: nat, k': Core, a: Addr, reply: Reply, b: nat)
    requires NearInv(s, b) && a in s.lines && p < |s.cores| && s'.cores == s.cores[p := k'] && Near(k'.prio, b + 1)
    requires s'.lines.Keys == s.lines.Keys && forall d | d in s.lines && d != a :: s'.lines[d] == s.lines[d]
    requires s'.lines[a].prio == s.lines[a].prio && s'.lines[a].replies == s.lines[a].replies + [reply]
    requires reply.Nack? ==> Near(reply.prio, b + 1)
    ensures NearInv(s', b + 1)
  {
    forall d | d in s'.lines ensures NearRequest(s'.lines[d], b + 1) {
      assert NearRequest(s.lines[d], b);
    }
  }

  lemma NearReplace(s: State, s': State, c: nat, b: nat)
    requires NearInv(s, b) && c < |s.cores| == |s'.cores| && s'.cores == s.cores[c := s'.cores[c]]
    requires LinesShrink(s.lines, s'.lines) && Near(s'.cores[c].prio, b + 1)
    ensures NearInv(s', b + 1)
  {
  }

  lemma NearIssue(s: State, s': State, c: nat, a: Addr, exclusive: bool, b: nat)
    requires NearInv(s, b) && RequestStep(s, s', c, a, exclusive)
    ensures NearInv(s', b + 1)
  {
  }

  lemma NearOrder(s: State, e: Step, b: nat)
    requires NearInv(s, b) && e.Deliver? && e.addr in s.lines
    requires multiset(e.order) == multiset(s.lines[e.addr].replies) && MergeReplies(e.order).Some?
    ensures Near(MergeReplies(e.order).value.prio, b)
  {
    var r := s.lines[e.addr];
    assert NearRequest(r, b);
    forall n | n in e.order && n.Nack? ensures Near(n.prio, b) {
      assert n in multiset(r.replies);
    }
    MergedNear(e.order, b);
  }

  lemma NearDeliver(cfg: Config, s: State, s': State, e: Step, b: nat)
    requires ChainInv(s) && NearInv(s, b) && e.Deliver? && Enabled(cfg, s, e)
    requires s' == Next(cfg, s, e)
    ensures NearInv(s', b + 1)
  {
    var r := s.lines[e.addr];
    DeliverShape(cfg, s, e);
    if RequestStep(s, s', r.core, e.addr, r.exclusive) {
      NearIssue(s, s', r.core, e.addr, r.exclusive, b);
    } else if CalmStep(s, s', r.core) {
      NearCalm(s, s', r.core, b);
    } else {
      NearConsume(cfg, s, s', e, b);
    }
  }

  lemma NearCalm(s: State, s': State, c: nat, b: nat)
    requires NearInv(s, b) && CalmStep(s, s', c)
    ensures NearInv(s', b + 1)
  {
    NearReplace(s, s', c, b);
  }

  lemma NearConsume(cfg: Config, s: State, s': State, e: Step, b: nat)
    requires NearInv(s, b) && ConsumeStep(cfg, s, s', e)
    ensures NearInv(s', b + 1)
  {
    NearOrder(s, e, b);
    NearReplace(s, s', s.lines[e.addr].core, b);
  }

  lemma NearStep(cfg: Config, s: State, e: Step, b: nat)
    requires ChainInv(s) && NearInv(s, b) && Enabled(cfg, s, e)
    ensures NearInv(Next(cfg, s, e), b + 1)
  {
    match e
    case Respond(_, _, _, _) => NearRespond(cfg, s, e, b);
    case Deliver(_, _, _) => NearDeliver(cfg, s, Next(cfg, s, e), e, b);
    case Issue(c, a, exclusive) => NearIssue(s, Next(cfg, s, e), c, a, exclusive, b);
    case Store(c, _, _) => NearReplace(s, Next(cfg, s, e), c, b);
    case _ =>
      CalmLocal(cfg, s, e);
      NearReplace(s, Next(cfg, s, e), e.core, b);
  }

  /** After k steps every position lies between -k and k. */
  lemma {:induction false} PositionsNear(cfg: Config, n: nat, steps: seq<Step>)
    requires Run(cfg, n, steps).Some?
    ensures NearInv(Run(cfg, n, steps).value, |steps|)
  {
    if steps != [] {
      var before := steps[..|steps| - 1];
      PositionsNear(cfg, n, before);
      ChainInvAlways(cfg, n, before);
      NearStep(cfg, Run(cfg, n, before).value, steps[|steps| - 1], |before|);
    }
  }
}
