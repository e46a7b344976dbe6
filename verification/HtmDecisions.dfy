/** What the conflict manager decides, written out on the states before and after a step:
    who keeps a block, when speculative data are sent, and what a nack does to the requester. */
module HtmDecisions {
  import opened Basics
  import opened HtmConfig
  import opened HtmModel
  import opened HtmChains
  import HtmForward
  import HtmSerial
  import HtmStalls

  // ---------- The holder's side ----------

  function ReplyAt(s: State, a: Addr): Reply
    requires a in s.lines && s.lines[a].replies != []
  {
    s.lines[a].replies[|s.lines[a].replies| - 1]
  }

  /** The directory knows the transaction as a sharer or, for shared access, as the owner. */
  predicate Asked(k: Core, a: Addr, exclusive: bool) {
    && k.inTx
    && (exclusive ==> a in k.granted)
    && (!exclusive ==> a in k.writeVals && a !in k.consumed)
  }

  /** The holder is no match for a requester with a position. */
  predicate Unplaced(cfg: Config, k: Core, r: Request) {
    cfg.numeric && cfg.ncNotProducer && k.prio == NC && r.prio != NC
  }

  /** Who wins when neither transaction is in power mode. */
  predicate WinsByRank(cfg: Config, k: Core, r: Request) {
    if !cfg.numeric then cfg.policy == RequesterLoses
    else if cfg.power then k.consumed == map[] || r.prio == k.prio || Below(r.prio, k.prio)
    else (k.consumed == map[] && cfg.fwd != NoFwd) || Below(r.prio, k.prio)
  }

  /** A power transaction beats any other. Between two of them the requester wins, except
      where requesters win and positions are off: there the holder does. */
  predicate Wins(cfg: Config, k: Core, r: Request) {
    && !Unplaced(cfg, k, r)
    && (cfg.power && k.power ==> !r.power || (!cfg.numeric && cfg.policy != RequesterLoses))
    && (cfg.power && !k.power ==> !r.power)
    && ((cfg.power && k.power) || WinsByRank(cfg, k, r))
  }

  /** The transaction is asked and does not give way. */
  predicate Stands(cfg: Config, k: Core, a: Addr, r: Request) {
    Asked(k, a, r.exclusive) && !k.doomed && r.trans && (cfg.policy == RequesterStalls || Wins(cfg, k, r))
  }

  /** The mechanism forwards at all, this policy lets it, and a transaction that holds
      forwarded data may pass data on only if chains may be longer than one. */
  predicate MayProduce(cfg: Config, k: Core) {
    cfg.fwd != NoFwd && (cfg.policy == RequesterWins ==> cfg.power) && (DepthOne(cfg) ==> k.consumed == map[])
  }

  /** The block is of a kind that may be forwarded. */
  predicate Presentable(cfg: Config, k: Core, a: Addr, writeInFlight: bool) {
    && (cfg.allowed == OnlyWritten ==> a in k.writeVals)
    && (cfg.allowed == NoWriteInFlight ==> !writeInFlight)
  }

  /** One more consumer fits, or the requester is one already. */
  predicate HasRoom(cfg: Config, k: Core, c: nat) {
    || c in k.sentTo
    || (cfg.fwd != W1D1 && cfg.fwd != W1DN && cfg.fwd != WXDX)
    || |k.sentTo| < (if cfg.fwd == WXDX then cfg.maxConsumers else 1)
  }

  /** When a transaction that keeps its block sends the data along. */
  predicate Sends(cfg: Config, k: Core, a: Addr, r: Request, hasLine: bool, writeInFlight: bool) {
    && Stands(cfg, k, a, r) && hasLine && MayProduce(cfg, k)
    && (cfg.noProduceOnRetry ==> k.retries == 0)
    && (k.power || Presentable(cfg, k, a, writeInFlight))
    && (k.power || cfg.fwd == Naive ||
          ((k.consumed == map[] || (cfg.numeric && Below(r.prio, k.prio))) && HasRoom(cfg, k, r.core)))
  }

  /** A producer under requester-wins aborts instead of sending a block of the wrong kind. */
  predicate AbortsInstead(cfg: Config, k: Core, a: Addr, r: Request, hasLine: bool, writeInFlight: bool) {
    && Stands(cfg, k, a, r) && hasLine && MayProduce(cfg, k)
    && (cfg.noProduceOnRetry ==> k.retries == 0)
    && !k.power && !Presentable(cfg, k, a, writeInFlight) && cfg.policy == RequesterWins
  }

  lemma SingleSender(s: set<nat>)
    ensures |s| < 1 <==> s == {}
  {
  }

  lemma KeysEmpty<K, V>(m: map<K, V>)
    ensures m.Keys == {} <==> m == map[]
  {
  }

  lemma WinsExactly(cfg: Config, k: Core, r: Request)
    ensures Wins(cfg, k, r) <==> ChooseWinner(cfg, k, r)
  {
    KeysEmpty(k.consumed);
  }

  lemma StandsExactly(cfg: Config, k: Core, a: Addr, r: Request)
    ensures Stands(cfg, k, a, r) <==> Conflicts(k, a, r.exclusive) && ShouldNack(cfg, k, r)
  {
    WinsExactly(cfg, k, r);
  }

  lemma SendsExactly(cfg: Config, k: Core, a: Addr, r: Request, hasLine: bool, writeInFlight: bool)
    requires Stands(cfg, k, a, r) && hasLine && CanProduce(cfg, k) && !BecomeProducer(cfg, k, a, r, writeInFlight).AssertionFailure?
    ensures Sends(cfg, k, a, r, hasLine, writeInFlight) <==> BecomeProducer(cfg, k, a, r, writeInFlight).Forward?
    ensures AbortsInstead(cfg, k, a, r, hasLine, writeInFlight) <==>
            BecomeProducer(cfg, k, a, r, writeInFlight).KeepDataAndAbort?
  {
    KeysEmpty(k.consumed);
    SingleSender(k.sentTo);
  }

  /** The step concerns only the answering core and the line. */
  ghost predicate OnlyAnswer(s: State, s': State, a: Addr, p: nat) {
    && a in s.lines && a in s'.lines && p < |s.cores| == |s'.cores| && s'.lines[a].replies != []
    && s' == s.(cores := s.cores[p := s'.cores[p]], lines := s.lines[a := s'.lines[a]])
    && var r := s.lines[a];
    s'.lines[a] == r.(pending := r.pending - {p}, replies := r.replies + [ReplyAt(s', a)])
  }

  /** An acknowledgement gives up the permission asked for, and costs a transaction that was
      asked its life. */
  predicate AckRule(cfg: Config, k: Core, k': Core, a: Addr, r: Request) {
    && k'.writable == k.writable - {a} && k'.readable == (if r.exclusive then k.readable - {a} else k.readable)
    && (k'.doomed <==> k.doomed || Asked(k, a, r.exclusive))
    && k' == k.(writable := k'.writable, readable := k'.readable, doomed := k'.doomed)
  }

  /** What the transaction itself would read. */
  predicate OwnValue(s: State, k: Core, a: Addr, v: Value) {
    && (a in k.writeVals ==> v == k.writeVals[a])
    && (a !in k.writeVals && a in k.consumed ==> v == k.consumed[a].value)
    && (a !in k.writeVals && a !in k.consumed ==> v == Mem(s.memory, a))
  }

  /** Who sends data outside power mode, holding none itself, is placed above the receiver: it
      keeps a position that is, and otherwise takes the next one, the first being 0. */
  predicate Placed(cfg: Config, k: Core, k': Core, r: Request) {
    if cfg.numeric && !k.power && k.consumed == map[] then
      && Below(r.prio, k'.prio)
      && (Below(r.prio, k.prio) ==> k'.prio == k.prio)
      && (!Below(r.prio, k.prio) ==> k'.prio.n == (if r.prio.NC? then 0 else r.prio.n + 1))
    else k'.prio == k.prio
  }

  /** A nack carries the identity, the position, the mode and the age of its sender. */
  predicate NackRule(cfg: Config, s: State, k: Core, k': Core, p: nat, r: Request, n: Reply) {
    && n.Nack? && n.sender == TxId(p, k.uid) && n.power == k.power && n.stamp == k.stamp
    && n.prio == (if cfg.numeric then k'.prio else NC)
    && k'.sentTo == k.sentTo + (if n.data.Some? then {r.core} else {})
    && (if n.data.Some? then Placed(cfg, k, k', r) else k'.prio == k.prio)
    && (k'.cycleFlag <==> k.cycleFlag || (cfg.policy == RequesterStalls
                                           && (r.stamp < k.stamp || (r.stamp == k.stamp && r.core < p))))
    && k' == k.(prio := k'.prio, sentTo := k'.sentTo, doomed := k'.doomed, cycleFlag := k'.cycleFlag)
  }

  /** Everything about the answer `n` of core `p`, which was `k` before and is `k'` after. */
  predicate AnswerRule(cfg: Config, s: State, e: Step, k: Core, k': Core, r: Request, n: Reply)
    requires e.Respond?
  {
    && (n.Nack? <==> Stands(cfg, k, e.addr, r))
    && (n.Ack? ==> AckRule(cfg, k, k', e.addr, r))
    && (n.Nack? ==> NackRule(cfg, s, k, k', e.core, r, n))
    && (CarriesData(n) <==> Sends(cfg, k, e.addr, r, e.hasLine, e.writeInFlight))
    && (CarriesData(n) ==> OwnValue(s, k, e.addr, n.data.value) && !r.power)
    && (n.Nack? ==> (k'.doomed <==> AbortsInstead(cfg, k, e.addr, r, e.hasLine, e.writeInFlight)))
  }

  lemma MayProduceExactly(cfg: Config, k: Core)
    ensures MayProduce(cfg, k) <==> CanProduce(cfg, k)
  {
    KeysEmpty(k.consumed);
  }

  lemma AckAnswer(cfg: Config, s: State, e: Step)
    requires e.Respond? && Enabled(cfg, s, e) && !Stands(cfg, s.cores[e.core], e.addr, s.lines[e.addr])
    ensures var (k', n) := Answer(cfg, s, e.addr, e.core, e.hasLine, e.writeInFlight).value;
            AnswerRule(cfg, s, e, s.cores[e.core], k', s.lines[e.addr], n)
  {
    StandsExactly(cfg, s.cores[e.core], e.addr, s.lines[e.addr]);
  }

  lemma PlacedExactly(cfg: Config, k: Core, r: Request)
    ensures Placed(cfg, k, k.(prio := PrioAfterSend(cfg, k, r.prio)), r)
  {
    KeysEmpty(k.consumed);
  }

  lemma DataAnswer(cfg: Config, s: State, e: Step)
    requires e.Respond? && Enabled(cfg, s, e) && Stands(cfg, s.cores[e.core], e.addr, s.lines[e.addr])
    requires e.hasLine && CanProduce(cfg, s.cores[e.core])
    requires BecomeProducer(cfg, s.cores[e.core], e.addr, s.lines[e.addr], e.writeInFlight).Forward?
    ensures var (k', n) := Answer(cfg, s, e.addr, e.core, e.hasLine, e.writeInFlight).value;
            AnswerRule(cfg, s, e, s.cores[e.core], k', s.lines[e.addr], n)
  {
    StandsExactly(cfg, s.cores[e.core], e.addr, s.lines[e.addr]);
    SendsExactly(cfg, s.cores[e.core], e.addr, s.lines[e.addr], e.hasLine, e.writeInFlight);
    PlacedExactly(cfg, s.cores[e.core], s.lines[e.addr]);
  }

  /** The answer is a nack without data. */
  lemma PlainAnswer(cfg: Config, s: State, e: Step)
    requires e.Respond? && Enabled(cfg, s, e) && Stands(cfg, s.cores[e.core], e.addr, s.lines[e.addr])
    requires e.hasLine ==> !CanProduce(cfg, s.cores[e.core])
    ensures var (k', n) := Answer(cfg, s, e.addr, e.core, e.hasLine, e.writeInFlight).value;
            AnswerRule(cfg, s, e, s.cores[e.core], k', s.lines[e.addr], n)
  {
    StandsExactly(cfg, s.cores[e.core], e.addr, s.lines[e.addr]);
    MayProduceExactly(cfg, s.cores[e.core]);
  }

  lemma WithheldAnswer(cfg: Config, s: State, e: Step)
    requires e.Respond? && Enabled(cfg, s, e) && Stands(cfg, s.cores[e.core], e.addr, s.lines[e.addr])
    requires e.hasLine && CanProduce(cfg, s.cores[e.core])
    requires !BecomeProducer(cfg, s.cores[e.core], e.addr, s.lines[e.addr], e.writeInFlight).Forward?
    ensures var (k', n) := Answer(cfg, s, e.addr, e.core, e.hasLine, e.writeInFlight).value;
            AnswerRule(cfg, s, e, s.cores[e.core], k', s.lines[e.addr], n)
  {
    StandsExactly(cfg, s.cores[e.core], e.addr, s.lines[e.addr]);
    SendsExactly(cfg, s.cores[e.core], e.addr, s.lines[e.addr], e.hasLine, e.writeInFlight);
  }

  lemma AnswersByRule(cfg: Config, s: State, e: Step)
    requires e.Respond? && Enabled(cfg, s, e)
    ensures var (k', n) := Answer(cfg, s, e.addr, e.core, e.hasLine, e.writeInFlight).value;
            AnswerRule(cfg, s, e, s.cores[e.core], k', s.lines[e.addr], n)
  {
    if !Stands(cfg, s.cores[e.core], e.addr, s.lines[e.addr]) {
      AckAnswer(cfg, s, e);
    } else if !e.hasLine || !CanProduce(cfg, s.cores[e.core]) {
      PlainAnswer(cfg, s, e);
    } else if BecomeProducer(cfg, s.cores[e.core], e.addr, s.lines[e.addr], e.writeInFlight).Forward? {
      DataAnswer(cfg, s, e);
    } else {
      WithheldAnswer(cfg, s, e);
    }
  }

  /** Main result: exactly what an answer is and does. */
  lemma AnsweredExactly(cfg: Config, s: State, e: Step)
    requires e.Respond? && Enabled(cfg, s, e)
    ensures var s' := Next(cfg, s, e);
            && OnlyAnswer(s, s', e.addr, e.core)
            && AnswerRule(cfg, s, e, s.cores[e.core], s'.cores[e.core], s.lines[e.addr], ReplyAt(s', e.addr))
  {
    AnswersByRule(cfg, s, e);
  }

  /** In no run does a transaction outside power mode send data, or record a consumer, while a
      write is in flight, where that is forbidden. */
  lemma WithheldWhileWriting(cfg: Config, n: nat, steps: seq<Step>, e: Step)
    requires cfg.allowed == NoWriteInFlight && e.Respond? && e.writeInFlight && Run(cfg, n, steps + [e]).Some?
    ensures Run(cfg, n, steps).Some?
    ensures var s, s' := Run(cfg, n, steps).value, Run(cfg, n, steps + [e]).value;
            && e.addr in s'.lines && s'.lines[e.addr].replies != [] && e.core < |s.cores| == |s'.cores|
            && (!s.cores[e.core].power ==>
                  && !CarriesData(ReplyAt(s', e.addr))
                  && forall c | 0 <= c < |s.cores| :: s'.cores[c].sentTo == s.cores[c].sentTo)
  {
    RunStep(cfg, n, steps, e);
    AnsweredExactly(cfg, Run(cfg, n, steps).value, e);
  }

  lemma RunStep(cfg: Config, n: nat, steps: seq<Step>, e: Step)
    requires Run(cfg, n, steps + [e]).Some?
    ensures Run(cfg, n, steps).Some? && Enabled(cfg, Run(cfg, n, steps).value, e)
    ensures Run(cfg, n, steps + [e]).value == Next(cfg, Run(cfg, n, steps).value, e)
  {
    assert (steps + [e])[..|steps|] == steps;
  }

  /** The repository's own configuration never sends data while a write is in flight. */
  lemma ChatsWithholds(n: nat, steps: seq<Step>, e: Step)
    requires e.Respond? && e.writeInFlight && Run(HtmForward.CHATS, n, steps + [e]).Some?
    ensures Run(HtmForward.CHATS, n, steps).Some?
    ensures var s, s' := Run(HtmForward.CHATS, n, steps).value, Run(HtmForward.CHATS, n, steps + [e]).value;
            && e.addr in s'.lines && s'.lines[e.addr].replies != [] && !CarriesData(ReplyAt(s', e.addr))
            && |s.cores| == |s'.cores| && forall c | 0 <= c < |s.cores| :: s'.cores[c].sentTo == s.cores[c].sentTo
  {
    WithheldWhileWriting(HtmForward.CHATS, n, steps, e);
    HtmStalls.PowerlessAlways(HtmForward.CHATS, n, steps);
  }

  // ---------- The requester's side ----------

  predicate SomeNack(order: seq<Reply>) {
    exists i :: 0 <= i < |order| && order[i].Nack?
  }

  /** The nack that arrived first. */
  predicate IsFirst(order: seq<Reply>, i: nat) {
    i < |order| && order[i].Nack? && forall j | 0 <= j < i :: order[j].Ack?
  }

  /** The nack of the earliest transaction, the first to arrive if there are several. */
  predicate IsEldest(order: seq<Reply>, i: nat) {
    && i < |order| && order[i].Nack?
    && (forall j | 0 <= j < |order| && order[j].Nack? :: order[i].stamp <= order[j].stamp)
    && (forall j | 0 <= j < i && order[j].Nack? :: order[i].stamp < order[j].stamp)
  }

  /** A nack with the lowest position. */
  predicate IsLowest(order: seq<Reply>, i: nat) {
    && i < |order| && order[i].Nack?
    && forall j | 0 <= j < |order| && order[j].Nack? :: AtMost(order[i].prio, order[j].prio)
  }

  predicate AllCarryData(order: seq<Reply>) {
    forall j | 0 <= j < |order| && order[j].Nack? :: order[j].data.Some?
  }

  predicate SomePower(order: seq<Reply>) {
    exists j :: 0 <= j < |order| && order[j].Nack? && order[j].power
  }

  /** What the cache keeps of the nacks. */
  predicate Summary(order: seq<Reply>, first: nat, eldest: nat, lowest: nat, m: Merged) {
    && IsFirst(order, first) && IsEldest(order, eldest) && IsLowest(order, lowest)
    && m.prio == order[lowest].prio && m.stamp == order[eldest].stamp && m.eldest == order[eldest].sender.core
    && (m.power <==> SomePower(order)) && (m.data.Some? <==> AllCarryData(order))
    && (m.data.Some? ==> m.data == order[first].data)
  }

  lemma PowerMore(order: seq<Reply>, n: Reply)
    ensures SomePower(order + [n]) <==> SomePower(order) || (n.Nack? && n.power)
  {
    var all := order + [n];
    if j :| 0 <= j < |order| && order[j].Nack? && order[j].power {
      assert all[j].power;
    }
    if n.Nack? && n.power {
      assert all[|order|].power;
    }
    if j :| 0 <= j < |all| && all[j].Nack? && all[j].power {
      assert j < |order| ==> order[j].power;
    }
  }

  lemma DataMore(order: seq<Reply>, n: Reply)
    ensures AllCarryData(order + [n]) <==> AllCarryData(order) && (n.Nack? ==> n.data.Some?)
  {
    var all := order + [n];
    assert all[|order|] == n && forall j | 0 <= j < |order| :: all[j] == order[j];
  }

  lemma SummaryMore(order: seq<Reply>, n: Reply, first: nat, eldest: nat, lowest: nat, m: Merged)
    returns (eldest': nat, lowest': nat)
    requires Summary(order, first, eldest, lowest, m) && n.Nack?
    ensures Summary(order + [n], first, eldest', lowest', MergeNack(Some(m), n))
  {
    eldest' := if n.stamp < order[eldest].stamp then |order| else eldest;
    lowest' := if Below(n.prio, order[lowest].prio) then |order| else lowest;
    var all := order + [n];
    assert all[|order|] == n && forall j | 0 <= j < |order| :: all[j] == order[j];
    DataMore(order, n);
    PowerMore(order, n);
  }

  lemma SummaryAck(order: seq<Reply>, first: nat, eldest: nat, lowest: nat, m: Merged)
    requires Summary(order, first, eldest, lowest, m)
    ensures Summary(order + [Ack], first, eldest, lowest, m)
  {
    var all := order + [Ack];
    assert all[|order|] == Ack && forall j | 0 <= j < |order| :: all[j] == order[j];
    DataMore(order, Ack);
    PowerMore(order, Ack);
  }

  lemma SummaryOne(order: seq<Reply>, n: Reply)
    requires n.Nack? && forall j | 0 <= j < |order| :: order[j].Ack?
    ensures Summary(order + [n], |order|, |order|, |order|, MergeNack(None, n))
  {
    var all := order + [n];
    assert all[|order|] == n && forall j | 0 <= j < |order| :: all[j] == order[j];
    DataMore(order, n);
    PowerMore(order, n);
  }

  /** The nacks of a request are merged into the lowest position, the earliest time and the
      data of the first, if all had data. */
  lemma {:induction false} MergedExactly(order: seq<Reply>) returns (first: nat, eldest: nat, lowest: nat)
    requires SomeNack(order)
    ensures MergeReplies(order).Some? && Summary(order, first, eldest, lowest, MergeReplies(order).value)
  {
    var init, last := order[..|order| - 1], order[|order| - 1];
    assert order == init + [last];
    if SomeNack(init) {
      first, eldest, lowest := MergedExactly(init);
      if last.Nack? {
        eldest, lowest := SummaryMore(init, last, first, eldest, lowest, MergeReplies(init).value);
      } else {
        SummaryAck(init, first, eldest, lowest, MergeReplies(init).value);
      }
    } else {
      assert forall j | 0 <= j < |init| :: init[j].Ack?;
      HtmSerial.NoNackMerged(init);
      SummaryOne(init, last);
      first, eldest, lowest := |init|, |init|, |init|;
    }
  }

  /** The transaction that asked has ended or is bound to abort. */
  predicate Stale(k: Core, r: Request) {
    !r.trans || !k.inTx || k.uid != r.uid || k.doomed
  }

  /** The lowest nack does not outrank the requester, where ranks are compared. */
  predicate OutOfRank(cfg: Config, k: Core, lowest: Prio) {
    && cfg.numeric && cfg.cycle != NoStrategy
    && (lowest == k.prio || Below(lowest, k.prio) || (lowest == NC && !cfg.ncNotProducer))
  }

  /** The age test: warned, and nacked by an older transaction. */
  predicate Caught(cfg: Config, k: Core, c: nat, eldest: Reply)
    requires eldest.Nack?
  {
    && cfg.policy == RequesterStalls && k.cycleFlag
    && (eldest.stamp < k.stamp || (eldest.stamp == k.stamp && eldest.sender.core < c))
  }

  /** The mechanism forwards at all, and a producer may consume only if chains may be longer
      than one. */
  predicate MayConsume(cfg: Config, k: Core) {
    cfg.fwd != NoFwd && (DepthOne(cfg) ==> k.sentTo == {})
  }

  /** The request is issued again instead. */
  predicate AsksAnew(cfg: Config, k: Core, lowest: Prio, retry: bool) {
    OutOfRank(cfg, k, lowest) && cfg.cycle == RetryOnCycle && retry
  }

  predicate Takes(cfg: Config, k: Core, lowest: Prio, order: seq<Reply>) {
    !OutOfRank(cfg, k, lowest) && AllCarryData(order) && MayConsume(cfg, k)
  }

  /** The position is out of the bounds of the bounded mechanism. */
  predicate OutOfBounds(cfg: Config, p: Prio) {
    cfg.fwd == WXDX && p.Num? && !(0 - cfg.maxPrioDiff <= p.n <= cfg.maxPrioDiff)
  }

  /** The position below the lowest producer, for a transaction that has none, outside the
      stalling policy and if no producer is in power mode. */
  function PlaceBelow(cfg: Config, k: Core, lowest: Prio, power: bool): Prio {
    if cfg.numeric && cfg.policy != RequesterStalls && k.prio == NC && lowest.Num? && !power
    then Num(lowest.n - 1) else k.prio
  }

  /** The core takes in the value `v`: a new block, or the answer for one it holds, which must
      not have changed. */
  predicate TakeRule(cfg: Config, k: Core, k': Core, a: Addr, v: Value, from: set<TxId>, lowest: Prio, power: bool, caught: bool) {
    && k' == k.(consumed := k'.consumed, everConsumed := k.everConsumed + from, prio := k'.prio, doomed := k'.doomed)
    && (a in k.consumed ==>
          && k'.consumed == k.consumed[a := Forwarded(k.consumed[a].value, from)] && k'.prio == k.prio
          && (k'.doomed <==> caught || k.consumed[a].value != v))
    && (a !in k.consumed ==>
          && k'.consumed == k.consumed[a := Forwarded(v, from)] && k'.prio == PlaceBelow(cfg, k, lowest, power)
          && (k'.doomed <==> caught || |k'.consumed.Keys| > cfg.maxConsumedBlocks || OutOfBounds(cfg, k'.prio)))
  }

  /** Without usable data only a requester that stalls, or wins, goes on, and only if it is
      not caught and does not hold the block as forwarded data. */
  predicate RefusalRule(cfg: Config, k: Core, k': Core, a: Addr, caught: bool) {
    && k' == k.(doomed := k'.doomed)
    && (k'.doomed <==> a in k.consumed || cfg.policy == RequesterLoses || cfg.power || caught)
  }

  ghost predicate NackedRule(cfg: Config, s: State, s': State, e: Step, first: Reply, eldest: Reply, lowest: Reply)
    requires e.Deliver? && first.Nack? && eldest.Nack? && lowest.Nack?
  {
    && e.addr in s.lines && s.lines[e.addr].core < |s.cores| == |s'.cores|
    && var a, r := e.addr, s.lines[e.addr];
    && var k, k' := s.cores[r.core], s'.cores[r.core];
    && var caught := Caught(cfg, k, r.core, eldest);
    if Stale(k, r) then s' == s.(lines := s.lines - {a})
    else if AsksAnew(cfg, k, lowest.prio, e.retry) then
      s' == s.(lines := s.lines[a := Request(r.core, k.uid, true, k.prio, k.power, r.exclusive,
                                             CoreIds(|s.cores|) - {r.core}, [], k.stamp)])
    else
      && s' == s.(lines := s.lines - {a}, cores := s.cores[r.core := k'])
      && if Takes(cfg, k, lowest.prio, e.order)
         then first.data.Some? && TakeRule(cfg, k, k', a, first.data.value, Nackers(r.replies), lowest.prio, SomePower(e.order), caught)
         else RefusalRule(cfg, k, k', a, caught)
  }

  lemma TakesExactly(cfg: Config, k: Core, m: Merged, order: seq<Reply>, first: nat, eldest: nat, lowest: nat)
    requires Summary(order, first, eldest, lowest, m)
    ensures OutOfRank(cfg, k, m.prio) <==> IsIllegal(cfg, k, m.prio)
    ensures Takes(cfg, k, m.prio, order) <==> !IsIllegal(cfg, k, m.prio) && m.data.Some? && ShouldAccept(cfg, k)
  {
  }

  lemma TakenByRule(cfg: Config, k: Core, a: Addr, m: Merged, from: set<TxId>, order: seq<Reply>, caught: bool)
    requires m.data.Some? && !k.doomed && (m.power <==> SomePower(order))
    ensures TakeRule(cfg, k, Consumed(cfg, k, a, m, from, caught), a, m.data.value, from, m.prio, SomePower(order), caught)
  {
  }

  /** Main result: exactly what the nacks for a request do to the requester. */
  lemma NackedExactly(cfg: Config, s: State, e: Step) returns (first: nat, eldest: nat, lowest: nat)
    requires e.Deliver? && Enabled(cfg, s, e) && SomeNack(e.order)
    ensures IsFirst(e.order, first) && IsEldest(e.order, eldest) && IsLowest(e.order, lowest)
    ensures NackedRule(cfg, s, Next(cfg, s, e), e, e.order[first], e.order[eldest], e.order[lowest])
  {
    first, eldest, lowest := MergedExactly(e.order);
    var m, r := MergeReplies(e.order).value, s.lines[e.addr];
    var k := s.cores[r.core];
    TakesExactly(cfg, k, m, e.order, first, eldest, lowest);
    var caught := Caught(cfg, k, r.core, e.order[eldest]);
    if !Stale(k, r) && Takes(cfg, k, m.prio, e.order) {
      TakenByRule(cfg, k, e.addr, m, Nackers(r.replies), e.order, caught);
    }
  }

  /** The request was for a transaction that still runs. */
  predicate Awaited(s: State, a: Addr) {
    a in s.lines && s.lines[a].core < |s.cores| && !Stale(s.cores[s.lines[a].core], s.lines[a])
  }

  /** In every run under requester-loses or power, a nacked transaction holds the block as
      forwarded data, asks again, or is doomed. */
  lemma NackEndsIt(cfg: Config, n: nat, steps: seq<Step>, e: Step)
    requires cfg.policy == RequesterLoses || cfg.power
    requires e.Deliver? && SomeNack(e.order) && Run(cfg, n, steps + [e]).Some?
    ensures Run(cfg, n, steps).Some?
    ensures var s, s' := Run(cfg, n, steps).value, Run(cfg, n, steps + [e]).value;
            Awaited(s, e.addr) ==>
              && var r := s.lines[e.addr];
              && r.core < |s'.cores|
              && var k' := s'.cores[r.core];
              || (e.addr in k'.consumed && k'.consumed[e.addr].producers == Nackers(r.replies))
              || (cfg.cycle == RetryOnCycle && e.addr in s'.lines && s'.lines[e.addr].core == r.core
                  && s'.lines[e.addr].uid == k'.uid && s'.lines[e.addr].replies == [])
              || k'.doomed
  {
    RunStep(cfg, n, steps, e);
    var first, eldest, lowest := NackedExactly(cfg, Run(cfg, n, steps).value, e);
  }

  /** The data fit: the same value again, or one more block within the limits. */
  predicate Fits(cfg: Config, k: Core, a: Addr, v: Value, p: Prio) {
    if a in k.consumed then k.consumed[a].value == v
    else |k.consumed.Keys| < cfg.maxConsumedBlocks && !OutOfBounds(cfg, p)
  }

  /** In every run under the stalling policy, a nacked transaction survives exactly if it is not
      caught by the age test and asks again, takes data that fit, or gets none for a block that
      it does not hold as forwarded data. */
  lemma StallsExactly(cfg: Config, n: nat, steps: seq<Step>, e: Step) returns (first: nat, eldest: nat, lowest: nat)
    requires cfg.policy == RequesterStalls && !cfg.power
    requires e.Deliver? && SomeNack(e.order) && Run(cfg, n, steps + [e]).Some?
    ensures IsFirst(e.order, first) && IsEldest(e.order, eldest) && IsLowest(e.order, lowest)
    ensures Run(cfg, n, steps).Some?
    ensures var s, s' := Run(cfg, n, steps).value, Run(cfg, n, steps + [e]).value;
            Awaited(s, e.addr) ==>
              && var r := s.lines[e.addr];
              && r.core < |s'.cores|
              && var k, low := s.cores[r.core], e.order[lowest].prio;
              && (Takes(cfg, k, low, e.order) ==> e.order[first].data.Some?)
              && (!s'.cores[r.core].doomed <==>
                    || AsksAnew(cfg, k, low, e.retry)
                    || (!Caught(cfg, k, r.core, e.order[eldest])
                        && if Takes(cfg, k, low, e.order) then Fits(cfg, k, e.addr, e.order[first].data.value, k.prio)
                           else e.addr !in k.consumed))
  {
    RunStep(cfg, n, steps, e);
    var s := Run(cfg, n, steps).value;
    first, eldest, lowest := NackedExactly(cfg, s, e);
    if Awaited(s, e.addr) {
      var k := s.cores[s.lines[e.addr].core];
      OneMore(k.consumed, e.addr, Next(cfg, s, e).cores[s.lines[e.addr].core].consumed);
    }
  }

  lemma OneMore(m: map<Addr, Forwarded>, a: Addr, m': map<Addr, Forwarded>)
    ensures m'.Keys == m.Keys + {a} && a !in m ==> |m'.Keys| == |m.Keys| + 1
  {
  }

  // ---------- Permission ----------

  /** The transaction that asked for exclusive access holds the block as forwarded data. */
  predicate Validates(k: Core, a: Addr, r: Request) {
    r.exclusive && k.inTx && k.uid == r.uid && a in k.consumed
  }

  /** Exactly what a request that nobody nacks gives the requester: the permission, and for a
      block held as forwarded data the validation, which fails on any other value. */
  lemma GrantedExactly(cfg: Config, s: State, e: Step)
    requires e.Deliver? && Enabled(cfg, s, e) && !SomeNack(e.order)
    ensures var s', a, r := Next(cfg, s, e), e.addr, s.lines[e.addr];
            && r.core < |s'.cores|
            && var k, k' := s.cores[r.core], s'.cores[r.core];
            && s' == s.(lines := s.lines - {a}, cores := s.cores[r.core := k'])
            && k' == k.(readable := k.readable + {a}, writable := k'.writable, consumed := k'.consumed,
                        granted := k'.granted, doomed := k'.doomed)
            && (if r.exclusive then k'.writable == k.writable + {a} else k'.writable == k.writable)
            && (Validates(k, a, r) ==>
                  && k'.consumed == k.consumed - {a} && k'.granted == k.granted + {a}
                  && (k'.doomed <==> k.doomed || Mem(s.memory, a) != k.consumed[a].value))
            && (!Validates(k, a, r) ==> k'.consumed == k.consumed && k'.granted == k.granted && k'.doomed == k.doomed)
  {
    assert forall i | 0 <= i < |e.order| :: e.order[i].Ack?;
    HtmSerial.NoNackMerged(e.order);
  }

  /** A request outside a transaction has neither position nor mode and is the youngest. */
  lemma IssuedExactly(cfg: Config, s: State, e: Step)
    requires e.Issue? && Enabled(cfg, s, e)
    ensures var s', k := Next(cfg, s, e), s.cores[e.core];
            && e.addr in s'.lines
            && var r := s'.lines[e.addr];
            && s' == s.(lines := s.lines[e.addr := r])
            && r.core == e.core && r.uid == k.uid && r.exclusive == e.exclusive && r.replies == []
            && (forall d: nat :: d in r.pending <==> d < |s.cores| && d != e.core)
            && (r.trans <==> k.inTx)
            && (if r.trans then r.prio == k.prio && r.power == k.power && r.stamp == k.stamp
                else r.prio == NC && !r.power && r.stamp == s.clock)
  {
  }

  /** Losing a block costs a transaction its life exactly if it has written the block or holds
      it as forwarded data. */
  lemma EvictedExactly(cfg: Config, s: State, e: Step)
    requires e.Evict? && Enabled(cfg, s, e)
    ensures var s', k := Next(cfg, s, e), s.cores[e.core];
            && e.core < |s'.cores|
            && var k' := s'.cores[e.core];
            && s' == s.(cores := s.cores[e.core := k'])
            && k' == k.(readable := k.readable - {e.addr}, writable := k.writable - {e.addr}, doomed := k'.doomed)
            && (k'.doomed <==> k.doomed || (k.inTx && e.addr in k.writeVals.Keys + k.consumed.Keys))
  {
  }
}
