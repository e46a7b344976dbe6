/** Building runs: what a state shows, and the steps that lead from one view to another. */
module HtmRuns {
  import opened Basics
  import opened HtmConfig
  import opened HtmModel

  /** A state without its clock. */
  datatype View = View(cores: seq<Core>, lines: map<Addr, Request>, memory: map<Addr, Value>, log: seq<Entry>)

  predicate Shows(s: State, v: View) {
    s.cores == v.cores && s.lines == v.lines && s.memory == v.memory && s.log == v.log
  }

  /** Nothing is outstanding and nothing has been committed. */
  function Start(cores: seq<Core>): View {
    View(cores, map[], map[], [])
  }

  ghost predicate Gets(cfg: Config, steps: seq<Step>, v: View) {
    Run(cfg, |v.cores|, steps).Some? && Shows(Run(cfg, |v.cores|, steps).value, v)
  }

  /** Some run leads to the view. */
  ghost predicate Reach(cfg: Config, v: View) {
    exists steps :: Gets(cfg, steps, v)
  }

  ghost predicate Moves(cfg: Config, v: View, e: Step, v': View) {
    |v'.cores| == |v.cores| && forall s | Shows(s, v) :: Enabled(cfg, s, e) && Shows(Next(cfg, s, e), v')
  }

  lemma GoOn(cfg: Config, steps: seq<Step>, v: View, e: Step, v': View)
    requires Gets(cfg, steps, v) && Moves(cfg, v, e, v')
    ensures Gets(cfg, steps + [e], v')
  {
    assert (steps + [e])[..|steps|] == steps;
  }

  lemma Go(cfg: Config, v: View, e: Step, v': View)
    requires Reach(cfg, v) && Moves(cfg, v, e, v')
    ensures Reach(cfg, v')
  {
    var steps :| Gets(cfg, steps, v);
    GoOn(cfg, steps, v, e, v');
  }

  // ---------- Beginning ----------

  /** A transaction at its first attempt, before it accesses anything. */
  function Fresh(): Core {
    IdleCore(1, 0, 0, {}, {}).(inTx := true)
  }

  function Begun(n: nat, i: nat): (r: seq<Core>)
    requires i <= n
    ensures |r| == n && forall c | 0 <= c < n :: r[c] == if c < i then Fresh() else IdleCore(0, 0, 0, {}, {})
  {
    seq(n, c => if c < i then Fresh() else IdleCore(0, 0, 0, {}, {}))
  }

  lemma {:induction false} SomeBegin(cfg: Config, n: nat, i: nat) returns (steps: seq<Step>)
    requires i <= n
    ensures Run(cfg, n, steps) == Some(State(Begun(n, i), map[], map[], [], 0))
  {
    if i == 0 {
      steps := [];
      assert Init(n).cores == Begun(n, 0);
    } else {
      var before := SomeBegin(cfg, n, i - 1);
      steps := before + [Begin(i - 1, false, 0)];
      assert steps[..|before|] == before;
      OneBegins(cfg, n, i);
    }
  }

  lemma OneBegins(cfg: Config, n: nat, i: nat)
    requires 0 < i <= n
    ensures var s := State(Begun(n, i - 1), map[], map[], [], 0);
            && Enabled(cfg, s, Begin(i - 1, false, 0))
            && Next(cfg, s, Begin(i - 1, false, 0)) == State(Begun(n, i), map[], map[], [], 0)
  {
    assert BeginCore(IdleCore(0, 0, 0, {}, {}), false, 0) == Fresh();
    assert Begun(n, i - 1)[i - 1 := Fresh()] == Begun(n, i);
  }

  /** All cores begin a transaction in the same cycle. */
  lemma AllBegin(cfg: Config, n: nat)
    ensures Reach(cfg, Start(Begun(n, n)))
  {
    var steps := SomeBegin(cfg, n, n);
    assert Gets(cfg, steps, Start(Begun(n, n)));
  }

  /** A core begins a new transaction, some time later. */
  lemma BeginsLater(cfg: Config, v: View, c: nat) returns (now: nat)
    requires Reach(cfg, v) && c < |v.cores| && !v.cores[c].inTx
    ensures Reach(cfg, v.(cores := v.cores[c := BeginCore(v.cores[c], false, now)]))
  {
    var steps :| Gets(cfg, steps, v);
    now := Run(cfg, |v.cores|, steps).value.clock + 1;
    var v' := v.(cores := v.cores[c := BeginCore(v.cores[c], false, now)]);
    assert (steps + [Begin(c, false, now)])[..|steps|] == steps;
    assert Gets(cfg, steps + [Begin(c, false, now)], v');
  }

  // ---------- Requests ----------

  function ReqOf(cores: seq<Core>, c: nat, exclusive: bool): Request
    requires c < |cores|
  {
    var k := cores[c];
    Request(c, k.uid, true, k.prio, k.power, exclusive, CoreIds(|cores|) - {c}, [], k.stamp)
  }

  /** A request for exclusive access by a first transaction without a position. */
  function Asking(c: nat, pending: set<nat>, replies: seq<Reply>): Request {
    Request(c, 1, true, NC, false, true, pending, replies, 0)
  }

  lemma Asks(cfg: Config, v: View, c: nat, a: Addr, exclusive: bool)
    requires Reach(cfg, v) && c < |v.cores| && v.cores[c].inTx && !v.cores[c].doomed && a !in v.lines
    requires (a in v.cores[c].consumed ==> exclusive) && Misses(v.cores[c], a, exclusive)
    ensures Reach(cfg, v.(lines := v.lines[a := ReqOf(v.cores, c, exclusive)]))
  {
    Go(cfg, v, Issue(c, a, exclusive), v.(lines := v.lines[a := ReqOf(v.cores, c, exclusive)]));
  }

  function Replied(r: Request, p: nat, reply: Reply): Request {
    r.(pending := r.pending - {p}, replies := r.replies + [reply])
  }

  /** The core is not concerned by a request for the line. */
  predicate Indifferent(k: Core, a: Addr, exclusive: bool) {
    !Conflicts(k, a, exclusive) && Yield(k, a, exclusive) == k
  }

  function Acks(n: nat): (r: seq<Reply>)
    ensures |r| == n && forall i | 0 <= i < n :: r[i] == Ack
  {
    seq(n, i => Ack)
  }

  lemma AckMove(cfg: Config, v: View, a: Addr, p: nat)
    requires a in v.lines && p < |v.cores| && p in v.lines[a].pending
    requires Indifferent(v.cores[p], a, v.lines[a].exclusive)
    ensures Moves(cfg, v, Respond(a, p, true, false), v.(lines := v.lines[a := Replied(v.lines[a], p, Ack)]))
  {
    assert v.cores[p := v.cores[p]] == v.cores;
  }

  function AckedBy(v: View, a: Addr, S: set<nat>): View
    requires a in v.lines
  {
    var r := v.lines[a];
    v.(lines := v.lines[a := r.(pending := r.pending - S, replies := r.replies + Acks(|S|))])
  }

  lemma AckedByNone(v: View, a: Addr)
    requires a in v.lines
    ensures AckedBy(v, a, {}) == v
  {
    var r := v.lines[a];
    assert r.pending - {} == r.pending && r.replies + Acks(0) == r.replies;
    assert v.lines[a := r] == v.lines;
  }

  lemma AckedByMore(v: View, a: Addr, p: nat, S: set<nat>)
    requires a in v.lines && p in S
    ensures AckedBy(v.(lines := v.lines[a := Replied(v.lines[a], p, Ack)]), a, S - {p}) == AckedBy(v, a, S)
  {
    var r := v.lines[a];
    assert r.pending - {p} - (S - {p}) == r.pending - S;
    assert r.replies + [Ack] + Acks(|S| - 1) == r.replies + Acks(|S|);
    var r' := r.(pending := r.pending - S, replies := r.replies + Acks(|S|));
    assert v.lines[a := Replied(r, p, Ack)][a := r'] == v.lines[a := r'];
  }

  lemma AckedByAll(v: View, a: Addr, r: Request)
    ensures AckedBy(v.(lines := v.lines[a := r]), a, r.pending)
         == v.(lines := v.lines[a := r.(pending := {}, replies := r.replies + Acks(|r.pending|))])
  {
    var r' := r.(pending := {}, replies := r.replies + Acks(|r.pending|));
    assert r.pending - r.pending == {};
    assert v.lines[a := r][a := r'] == v.lines[a := r'];
  }

  /** All the cores in `S` acknowledge. */
  lemma {:induction false} AckFrom(cfg: Config, v: View, a: Addr, S: set<nat>)
    requires Reach(cfg, v) && a in v.lines && S <= v.lines[a].pending
    requires forall p | p in S :: p < |v.cores| && Indifferent(v.cores[p], a, v.lines[a].exclusive)
    ensures Reach(cfg, AckedBy(v, a, S))
    decreases |S|
  {
    if S == {} {
      AckedByNone(v, a);
    } else {
      var p :| p in S;
      var v' := v.(lines := v.lines[a := Replied(v.lines[a], p, Ack)]);
      AckMove(cfg, v, a, p);
      Go(cfg, v, Respond(a, p, true, false), v');
      AckedByMore(v, a, p, S);
      AckFrom(cfg, v', a, S - {p});
    }
  }

  // ---------- Data ----------

  /** The core after it has forwarded data to the requester. */
  function Offered(cfg: Config, k: Core, p: nat, r: Request): Core {
    Wary(cfg, k, p, r).(prio := PrioAfterSend(cfg, k, r.prio), sentTo := k.sentTo + {r.core})
  }

  /** The core nacks the request and may forward its block. */
  predicate CanOffer(cfg: Config, k: Core, a: Addr, r: Request) {
    && Conflicts(k, a, r.exclusive) && ShouldNack(cfg, k, r) && CanProduce(cfg, k)
    && BecomeProducer(cfg, k, a, r, false).Forward?
  }

  function Cached(v: View, k: Core, a: Addr): Value {
    if a in k.writeVals then k.writeVals[a]
    else if a in k.consumed then k.consumed[a].value
    else Mem(v.memory, a)
  }

  function Offer(cfg: Config, v: View, a: Addr, p: nat): Reply
    requires a in v.lines && p < |v.cores|
  {
    NackBy(cfg, Offered(cfg, v.cores[p], p, v.lines[a]), p, Some(Cached(v, v.cores[p], a)))
  }

  lemma Offers(cfg: Config, v: View, a: Addr, p: nat)
    requires Reach(cfg, v) && a in v.lines && p < |v.cores| && p in v.lines[a].pending
    requires CanOffer(cfg, v.cores[p], a, v.lines[a])
    ensures Reach(cfg, v.(cores := v.cores[p := Offered(cfg, v.cores[p], p, v.lines[a])],
                          lines := v.lines[a := Replied(v.lines[a], p, Offer(cfg, v, a, p))]))
  {
    var v' := v.(cores := v.cores[p := Offered(cfg, v.cores[p], p, v.lines[a])],
                 lines := v.lines[a := Replied(v.lines[a], p, Offer(cfg, v, a, p))]);
    Go(cfg, v, Respond(a, p, true, false), v');
  }

  // ---------- Deliveries ----------

  lemma {:induction false} MergeAcks(rs: seq<Reply>, n: nat)
    ensures MergeReplies(rs + Acks(n)) == MergeReplies(rs)
  {
    if n == 0 {
      assert rs + Acks(0) == rs;
    } else {
      MergeAcks(rs, n - 1);
      assert (rs + Acks(n))[..|rs| + n - 1] == rs + Acks(n - 1);
    }
  }

  lemma MergeOne(n: Reply)
    requires n.Nack?
    ensures MergeReplies([n]) == Some(Merged(n.prio, n.power, n.data, n.stamp, n.sender.core))
  {
    assert [n][..0] == [];
  }

  lemma MergeTwo(m: Reply, n: Reply)
    requires m.Nack? && n.Nack?
    ensures MergeReplies([m, n]) == Some(MergeNack(MergeReplies([m]), n))
  {
    assert [m, n][..1] == [m];
  }

  function Allowed(k: Core, a: Addr, exclusive: bool): Core {
    k.(readable := k.readable + {a}, writable := if exclusive then k.writable + {a} else k.writable)
  }

  /** Everybody acknowledged: the requester gets the line. */
  lemma Obtains(cfg: Config, v: View, a: Addr, n: nat)
    requires Reach(cfg, v) && a in v.lines && v.lines[a].pending == {} && v.lines[a].replies == Acks(n)
    requires var r := v.lines[a]; r.core < |v.cores| && a !in v.cores[r.core].consumed
    ensures var r := v.lines[a];
            Reach(cfg, v.(cores := v.cores[r.core := Allowed(v.cores[r.core], a, r.exclusive)], lines := v.lines - {a}))
  {
    var r := v.lines[a];
    MergeAcks([], n);
    assert [] + Acks(n) == Acks(n);
    Go(cfg, v, Deliver(a, Acks(n), false),
       v.(cores := v.cores[r.core := Allowed(v.cores[r.core], a, r.exclusive)], lines := v.lines - {a}));
  }

  /** The requester takes in the data of the merged nacks. */
  lemma Takes(cfg: Config, v: View, a: Addr, order: seq<Reply>, m: Merged)
    requires Reach(cfg, v) && a in v.lines && v.lines[a].pending == {} && multiset(order) == multiset(v.lines[a].replies)
    requires MergeReplies(order) == Some(m) && m.data.Some?
    requires var r := v.lines[a]; r.trans && r.core < |v.cores|
    requires var r := v.lines[a]; var k := v.cores[r.core];
             k.inTx && k.uid == r.uid && !k.doomed && !IsIllegal(cfg, k, m.prio) && ShouldAccept(cfg, k)
    ensures var r := v.lines[a]; var k := v.cores[r.core];
            Reach(cfg, v.(cores := v.cores[r.core := Consumed(cfg, k, a, m, Nackers(r.replies), Suspect(cfg, k, r.core, m))],
                          lines := v.lines - {a}))
  {
    var r := v.lines[a];
    var k := v.cores[r.core];
    Go(cfg, v, Deliver(a, order, false),
       v.(cores := v.cores[r.core := Consumed(cfg, k, a, m, Nackers(r.replies), Suspect(cfg, k, r.core, m))],
          lines := v.lines - {a}));
  }

  // ---------- Local steps ----------

  lemma Writes(cfg: Config, v: View, c: nat, a: Addr, x: Value)
    requires Reach(cfg, v) && c < |v.cores| && v.cores[c].inTx
    requires a in v.cores[c].writable || a in v.cores[c].consumed
    ensures Reach(cfg, v.(cores := v.cores[c := WriteCore(v.cores[c], a, x)]))
  {
    Go(cfg, v, Write(c, a, x), v.(cores := v.cores[c := WriteCore(v.cores[c], a, x)]));
  }

  lemma Reads(cfg: Config, v: View, c: nat, a: Addr)
    requires Reach(cfg, v) && c < |v.cores| && v.cores[c].inTx && a in v.cores[c].readable && a !in v.cores[c].consumed
    requires a !in v.cores[c].writeVals && a !in v.cores[c].readVals
    ensures var k := v.cores[c];
            Reach(cfg, v.(cores := v.cores[c := k.(granted := k.granted + {a},
                                                   readVals := k.readVals[a := {Mem(v.memory, a)}])]))
  {
    var k := v.cores[c];
    assert {} + {Mem(v.memory, a)} == {Mem(v.memory, a)};
    Go(cfg, v, Read(c, a),
       v.(cores := v.cores[c := k.(granted := k.granted + {a}, readVals := k.readVals[a := {Mem(v.memory, a)}])]));
  }

  function Committing(v: View, c: nat): View
    requires c < |v.cores|
  {
    var k := v.cores[c];
    v.(cores := v.cores[c := IdleCore(k.uid, 0, k.stamp, k.readable, k.writable)], memory := v.memory + k.writeVals,
       log := v.log + [Committed(c, k.readVals, k.writeVals)])
  }

  lemma Commits(cfg: Config, v: View, c: nat)
    requires Reach(cfg, v) && c < |v.cores| && v.cores[c].inTx && !v.cores[c].doomed && !v.cores[c].IsConsumer()
    ensures Reach(cfg, Committing(v, c))
  {
    Go(cfg, v, Commit(c), Committing(v, c));
  }

  // ---------- Several steps ----------

  lemma EveryAck(cfg: Config, v: View, a: Addr, r: Request)
    requires Reach(cfg, v.(lines := v.lines[a := r])) && r.replies == []
    requires forall p | p in r.pending :: p < |v.cores| && Indifferent(v.cores[p], a, r.exclusive)
    ensures Reach(cfg, v.(lines := v.lines[a := r.(pending := {}, replies := Acks(|r.pending|))]))
  {
    AckFrom(cfg, v.(lines := v.lines[a := r]), a, r.pending);
    AckedByAll(v, a, r);
    assert r.replies + Acks(|r.pending|) == Acks(|r.pending|);
  }

  /** A core asks for a line that concerns nobody else, and everybody acknowledges. */
  lemma AsksUnopposed(cfg: Config, v: View, c: nat, a: Addr, exclusive: bool)
    requires Reach(cfg, v) && c < |v.cores| && v.cores[c].inTx && !v.cores[c].doomed && a !in v.lines
    requires a !in v.cores[c].consumed && Misses(v.cores[c], a, exclusive)
    requires forall d | 0 <= d < |v.cores| && d != c :: Indifferent(v.cores[d], a, exclusive)
    ensures var r := ReqOf(v.cores, c, exclusive);
            Reach(cfg, v.(lines := v.lines[a := r.(pending := {}, replies := Acks(|r.pending|))]))
  {
    var r := ReqOf(v.cores, c, exclusive);
    Asks(cfg, v, c, a, exclusive);
    EveryAck(cfg, v, a, r);
  }

  /** A core obtains a line that concerns nobody else. */
  lemma Acquires(cfg: Config, v: View, c: nat, a: Addr, exclusive: bool)
    requires Reach(cfg, v) && c < |v.cores| && v.cores[c].inTx && !v.cores[c].doomed && a !in v.lines
    requires a !in v.cores[c].consumed && Misses(v.cores[c], a, exclusive)
    requires forall d | 0 <= d < |v.cores| && d != c :: Indifferent(v.cores[d], a, exclusive)
    ensures Reach(cfg, v.(cores := v.cores[c := Allowed(v.cores[c], a, exclusive)]))
  {
    var r := ReqOf(v.cores, c, exclusive);
    var r' := r.(pending := {}, replies := Acks(|r.pending|));
    AsksUnopposed(cfg, v, c, a, exclusive);
    Obtains(cfg, v.(lines := v.lines[a := r']), a, |r.pending|);
    assert v.lines[a := r'] - {a} == v.lines;
  }

  /** A core obtains a line and writes it. */
  lemma Claims(cfg: Config, v: View, c: nat, a: Addr)
    requires Reach(cfg, v) && c < |v.cores| && v.cores[c].inTx && !v.cores[c].doomed && a !in v.lines
    requires a !in v.cores[c].consumed && a !in v.cores[c].writable
    requires forall d | 0 <= d < |v.cores| && d != c :: Indifferent(v.cores[d], a, true)
    ensures Reach(cfg, v.(cores := v.cores[c := Claimed(v.cores[c], a)]))
  {
    Acquires(cfg, v, c, a, true);
    var k := v.cores[c];
    var k' := Allowed(k, a, true);
    Writes(cfg, v.(cores := v.cores[c := k']), c, a, 7);
    assert v.cores[c := k'][c := WriteCore(k', a, 7)] == v.cores[c := Claimed(k, a)];
  }

  function Claimed(k: Core, a: Addr): Core {
    k.(readable := k.readable + {a}, writable := k.writable + {a}, granted := k.granted + {a},
       writeVals := k.writeVals[a := 7])
  }

  /** A transaction at its first attempt that has written block `a` only. */
  function Writer(a: Addr): Core {
    Claimed(Fresh(), a)
  }

  function Fetched(v: View, k: Core, a: Addr): Core {
    k.(readable := k.readable + {a}, granted := k.granted + {a}, readVals := k.readVals[a := {Mem(v.memory, a)}])
  }

  /** A core obtains a line to read it, and reads it. */
  lemma Fetches(cfg: Config, v: View, c: nat, a: Addr)
    requires Reach(cfg, v) && c < |v.cores| && v.cores[c].inTx && !v.cores[c].doomed && a !in v.lines
    requires a !in v.cores[c].consumed && a !in v.cores[c].writeVals && a !in v.cores[c].readVals && a !in v.cores[c].readable
    requires forall d | 0 <= d < |v.cores| && d != c :: Indifferent(v.cores[d], a, false)
    ensures Reach(cfg, v.(cores := v.cores[c := Fetched(v, v.cores[c], a)]))
  {
    Acquires(cfg, v, c, a, false);
    var k := v.cores[c];
    var v1 := v.(cores := v.cores[c := Allowed(k, a, false)]);
    Reads(cfg, v1, c, a);
    assert v1.cores[c := Fetched(v, k, a)] == v.cores[c := Fetched(v, k, a)];
  }

  /** The core after it has taken in the data of one nack. */
  function TakenIn(cfg: Config, k: Core, c: nat, a: Addr, n: Reply): Core
    requires n.Nack? && n.data.Some?
  {
    var m := Merged(n.prio, n.power, n.data, n.stamp, n.sender.core);
    Consumed(cfg, k, a, m, {n.sender}, Suspect(cfg, k, c, m))
  }

  predicate CanTake(cfg: Config, k: Core, r: Request, prio: Prio) {
    r.trans && k.inTx && k.uid == r.uid && !k.doomed && !IsIllegal(cfg, k, prio) && ShouldAccept(cfg, k)
  }

  /** The other cores acknowledge and the requester takes in the one offer there is. */
  lemma TakesOffer(cfg: Config, v: View, a: Addr, n: Reply)
    requires Reach(cfg, v) && a in v.lines && v.lines[a].replies == [n] && n.Nack? && n.data.Some?
    requires forall p | p in v.lines[a].pending :: p < |v.cores| && Indifferent(v.cores[p], a, v.lines[a].exclusive)
    requires var r := v.lines[a]; r.core < |v.cores| && CanTake(cfg, v.cores[r.core], r, n.prio)
    ensures var c := v.lines[a].core;
            Reach(cfg, v.(cores := v.cores[c := TakenIn(cfg, v.cores[c], c, a, n)], lines := v.lines - {a}))
  {
    var r := v.lines[a];
    var acks := |r.pending|;
    AckFrom(cfg, v, a, r.pending);
    var r' := r.(pending := {}, replies := [n] + Acks(acks));
    assert r.pending - r.pending == {};
    MergeOne(n);
    MergeAcks([n], acks);
    NackersOf(n, acks);
    Takes(cfg, v.(lines := v.lines[a := r']), a, [n] + Acks(acks), MergeReplies([n]).value);
    assert v.lines[a := r'] - {a} == v.lines - {a};
  }

  /** What core `p` answers to a request of core `c` if it forwards data. */
  function OfferTo(cfg: Config, v: View, a: Addr, c: nat, p: nat, exclusive: bool): Reply
    requires c < |v.cores| && p < |v.cores|
  {
    NackBy(cfg, Offered(cfg, v.cores[p], p, ReqOf(v.cores, c, exclusive)), p, Some(Cached(v, v.cores[p], a)))
  }

  /** Core `c` asks, core `p` offers, and the answers of the others are outstanding. */
  lemma Pledges(cfg: Config, v: View, a: Addr, c: nat, p: nat, exclusive: bool)
    requires Reach(cfg, v) && c < |v.cores| && p < |v.cores| && c != p && a !in v.lines
    requires v.cores[c].inTx && !v.cores[c].doomed && (a in v.cores[c].consumed ==> exclusive) && Misses(v.cores[c], a, exclusive)
    requires CanOffer(cfg, v.cores[p], a, ReqOf(v.cores, c, exclusive))
    ensures var r := ReqOf(v.cores, c, exclusive);
            Reach(cfg, v.(cores := v.cores[p := Offered(cfg, v.cores[p], p, r)],
                          lines := v.lines[a := Replied(r, p, OfferTo(cfg, v, a, c, p, exclusive))]))
  {
    var r := ReqOf(v.cores, c, exclusive);
    Asks(cfg, v, c, a, exclusive);
    var v1 := v.(lines := v.lines[a := r]);
    Offers(cfg, v1, a, p);
    assert v1.lines[a := Replied(r, p, Offer(cfg, v1, a, p))] == v.lines[a := Replied(r, p, Offer(cfg, v1, a, p))];
  }

  /** Core `c` asks and takes in what core `p` offers. */
  lemma Lends(cfg: Config, v: View, a: Addr, c: nat, p: nat, exclusive: bool)
    requires Reach(cfg, v) && c < |v.cores| && p < |v.cores| && c != p && a !in v.lines
    requires v.cores[c].inTx && !v.cores[c].doomed && (a in v.cores[c].consumed ==> exclusive) && Misses(v.cores[c], a, exclusive)
    requires CanOffer(cfg, v.cores[p], a, ReqOf(v.cores, c, exclusive))
    requires forall d | 0 <= d < |v.cores| && d != c && d != p :: Indifferent(v.cores[d], a, exclusive)
    requires CanTake(cfg, v.cores[c], ReqOf(v.cores, c, exclusive), OfferTo(cfg, v, a, c, p, exclusive).prio)
    ensures Reach(cfg, v.(cores := v.cores[p := Offered(cfg, v.cores[p], p, ReqOf(v.cores, c, exclusive))]
                                          [c := TakenIn(cfg, v.cores[c], c, a, OfferTo(cfg, v, a, c, p, exclusive))]))
  {
    var r, n := ReqOf(v.cores, c, exclusive), OfferTo(cfg, v, a, c, p, exclusive);
    Pledges(cfg, v, a, c, p, exclusive);
    var v1 := v.(cores := v.cores[p := Offered(cfg, v.cores[p], p, r)], lines := v.lines[a := Replied(r, p, n)]);
    assert v1.lines[a].replies == [n];
    TakesOffer(cfg, v1, a, n);
    assert v1.lines - {a} == v.lines;
  }

  lemma NackersOf(n: Reply, acks: nat)
    requires n.Nack?
    ensures Nackers([n] + Acks(acks)) == {n.sender}
  {
    assert ([n] + Acks(acks))[0] == n;
  }

  // ---------- The same, with the outcome named ----------

  /** Core `p` can offer block `a` to core `c` and is `kp` afterwards. */
  predicate OffersAs(cfg: Config, k: Core, p: nat, a: Addr, r: Request, kp: Core) {
    CanOffer(cfg, k, a, r) && Offered(cfg, k, p, r) == kp
  }

  /** Core `c` can take in the nack `n` and is `kc` afterwards. */
  predicate TakesAs(cfg: Config, k: Core, c: nat, a: Addr, r: Request, n: Reply, kc: Core) {
    CarriesValue(n) && CanTake(cfg, k, r, n.prio) && TakenIn(cfg, k, c, a, n) == kc
  }

  predicate CarriesValue(n: Reply) {
    n.Nack? && n.data.Some?
  }

  lemma LendsAs(cfg: Config, v: View, a: Addr, c: nat, p: nat, exclusive: bool, x: Value, kp: Core, kc: Core, v': View)
    requires Reach(cfg, v) && c < |v.cores| && p < |v.cores| && c != p && a !in v.lines
    requires v.cores[c].inTx && !v.cores[c].doomed && (a in v.cores[c].consumed ==> exclusive) && Misses(v.cores[c], a, exclusive)
    requires OffersAs(cfg, v.cores[p], p, a, ReqOf(v.cores, c, exclusive), kp) && Cached(v, v.cores[p], a) == x
    requires forall d | 0 <= d < |v.cores| && d != c && d != p :: Indifferent(v.cores[d], a, exclusive)
    requires TakesAs(cfg, v.cores[c], c, a, ReqOf(v.cores, c, exclusive), NackBy(cfg, kp, p, Some(x)), kc)
    requires v' == v.(cores := v.cores[p := kp][c := kc])
    ensures Reach(cfg, v')
  {
    Lends(cfg, v, a, c, p, exclusive);
  }

  lemma PledgesAs(cfg: Config, v: View, a: Addr, c: nat, p: nat, x: Value, kp: Core, v': View)
    requires Reach(cfg, v) && c < |v.cores| && p < |v.cores| && c != p && a !in v.lines
    requires v.cores[c].inTx && !v.cores[c].doomed && a !in v.cores[c].writable
    requires OffersAs(cfg, v.cores[p], p, a, ReqOf(v.cores, c, true), kp) && Cached(v, v.cores[p], a) == x
    requires v' == v.(cores := v.cores[p := kp],
                      lines := v.lines[a := Replied(ReqOf(v.cores, c, true), p, NackBy(cfg, kp, p, Some(x)))])
    ensures Reach(cfg, v')
  {
    Pledges(cfg, v, a, c, p, true);
  }

  lemma OffersTo(cfg: Config, v: View, a: Addr, p: nat, x: Value, kp: Core, v': View)
    requires Reach(cfg, v) && a in v.lines && p < |v.cores| && p in v.lines[a].pending
    requires OffersAs(cfg, v.cores[p], p, a, v.lines[a], kp) && Cached(v, v.cores[p], a) == x
    requires v' == v.(cores := v.cores[p := kp],
                      lines := v.lines[a := Replied(v.lines[a], p, NackBy(cfg, kp, p, Some(x)))])
    ensures Reach(cfg, v')
  {
    Offers(cfg, v, a, p);
  }

  lemma TakesFrom(cfg: Config, v: View, a: Addr, n: Reply, kc: Core, v': View)
    requires Reach(cfg, v) && a in v.lines && v.lines[a].replies == [n] && v.lines[a].core < |v.cores|
    requires forall p | p in v.lines[a].pending :: p < |v.cores| && Indifferent(v.cores[p], a, v.lines[a].exclusive)
    requires TakesAs(cfg, v.cores[v.lines[a].core], v.lines[a].core, a, v.lines[a], n, kc)
    requires v' == v.(cores := v.cores[v.lines[a].core := kc], lines := v.lines - {a})
    ensures Reach(cfg, v')
  {
    TakesOffer(cfg, v, a, n);
  }

  /** Core `p` offers, and then only core `q` has not answered. */
  lemma OffersFirst(cfg: Config, v: View, a: Addr, p: nat, q: nat, k: Core, kp: Core, x: Value, r: Request, r': Request)
    requires Reach(cfg, v) && a in v.lines && v.lines[a] == r && r.pending == {p, q} && p != q && r.replies == []
    requires p < |v.cores| && v.cores[p] == k && Cached(v, k, a) == x && OffersAs(cfg, k, p, a, r, kp)
    requires r' == r.(pending := {q}, replies := [NackBy(cfg, kp, p, Some(x))])
    ensures Reach(cfg, v.(cores := v.cores[p := kp], lines := v.lines[a := r']))
  {
    var n := NackBy(cfg, kp, p, Some(x));
    assert r.pending - {p} == {q} && r.replies + [n] == [n];
    assert Replied(r, p, n) == r';
    OffersTo(cfg, v, a, p, x, kp, v.(cores := v.cores[p := kp], lines := v.lines[a := r']));
  }

  /** Core `q` acknowledges, and the requester takes in the offer. */
  lemma TakesLast(cfg: Config, v: View, a: Addr, q: nat, h: Core, kc: Core, r: Request, n: Reply, lines: map<Addr, Request>)
    requires Reach(cfg, v) && a in v.lines && v.lines[a] == r && r.pending == {q} && r.replies == [n] && lines == v.lines - {a}
    requires q < |v.cores| && Indifferent(v.cores[q], a, r.exclusive)
    requires r.core < |v.cores| && v.cores[r.core] == h && TakesAs(cfg, h, r.core, a, r, n, kc)
    ensures Reach(cfg, v.(cores := v.cores[r.core := kc], lines := lines))
  {
    TakesFrom(cfg, v, a, n, kc, v.(cores := v.cores[r.core := kc], lines := lines));
  }

  // ---------- Two nackers ----------

  /** What the cache keeps of two nacks with data, of which the first is no younger. */
  function MergedTwo(m: Reply, n: Reply): Merged
    requires CarriesValue(m) && CarriesValue(n)
  {
    Merged(Lower(m.prio, n.prio), m.power || n.power, m.data, m.stamp, m.sender.core)
  }

  lemma MergedTwoIs(m: Reply, n: Reply)
    requires CarriesValue(m) && CarriesValue(n) && m.stamp <= n.stamp
    ensures MergeReplies([m, n]) == Some(MergedTwo(m, n))
  {
    MergeTwo(m, n);
    MergeOne(m);
  }

  lemma NackersOfTwo(m: Reply, n: Reply, acks: nat)
    requires m.Nack? && n.Nack?
    ensures Nackers([m, n] + Acks(acks)) == {m.sender, n.sender}
  {
    var all := [m, n] + Acks(acks);
    assert all[0] == m && all[1] == n;
  }

  /** Core `c` can take in the nacks `m` and `n`, `m` first, and is `kc` afterwards. */
  predicate TakesBothAs(cfg: Config, k: Core, c: nat, a: Addr, r: Request, m: Reply, n: Reply, kc: Core) {
    && CarriesValue(m) && CarriesValue(n) && m.stamp <= n.stamp && CanTake(cfg, k, r, Lower(m.prio, n.prio))
    && kc == Consumed(cfg, k, a, MergedTwo(m, n), {m.sender, n.sender}, Suspect(cfg, k, c, MergedTwo(m, n)))
  }

  lemma TakesFromBoth(cfg: Config, v: View, a: Addr, m: Reply, n: Reply, kc: Core, v': View)
    requires Reach(cfg, v) && a in v.lines && v.lines[a].replies == [m, n] && v.lines[a].core < |v.cores|
    requires forall p | p in v.lines[a].pending :: p < |v.cores| && Indifferent(v.cores[p], a, v.lines[a].exclusive)
    requires TakesBothAs(cfg, v.cores[v.lines[a].core], v.lines[a].core, a, v.lines[a], m, n, kc)
    requires v' == v.(cores := v.cores[v.lines[a].core := kc], lines := v.lines - {a})
    ensures Reach(cfg, v')
  {
    var r := v.lines[a];
    var acks := |r.pending|;
    AckFrom(cfg, v, a, r.pending);
    var r' := r.(pending := {}, replies := [m, n] + Acks(acks));
    assert r.pending - r.pending == {};
    MergedTwoIs(m, n);
    MergeAcks([m, n], acks);
    NackersOfTwo(m, n, acks);
    Takes(cfg, v.(lines := v.lines[a := r']), a, [m, n] + Acks(acks), MergedTwo(m, n));
    assert v.lines[a := r'] - {a} == v.lines - {a};
  }

  /** What other cores have answered does not matter to a core that offers. */
  lemma OffersAnyway(cfg: Config, k: Core, p: nat, a: Addr, r: Request, kp: Core, pending: set<nat>, replies: seq<Reply>)
    requires OffersAs(cfg, k, p, a, r, kp)
    ensures OffersAs(cfg, k, p, a, r.(pending := pending, replies := replies), kp)
  {
  }

  /** Cores `p` and `q` offer the same value, in this order. */
  lemma TwoOffer(cfg: Config, v: View, a: Addr, p: nat, q: nat, x: Value, kp: Core, kq: Core, v': View)
    requires Reach(cfg, v) && a in v.lines && v.lines[a].replies == [] && p != q
    requires p < |v.cores| && p in v.lines[a].pending && Cached(v, v.cores[p], a) == x
    requires q < |v.cores| && q in v.lines[a].pending && Cached(v, v.cores[q], a) == x
    requires OffersAs(cfg, v.cores[p], p, a, v.lines[a], kp) && OffersAs(cfg, v.cores[q], q, a, v.lines[a], kq)
    requires v' == v.(cores := v.cores[p := kp][q := kq],
                      lines := v.lines[a := v.lines[a].(pending := v.lines[a].pending - {p} - {q},
                                                        replies := [NackBy(cfg, kp, p, Some(x)), NackBy(cfg, kq, q, Some(x))])])
    ensures Reach(cfg, v')
  {
    var r := v.lines[a];
    var m, n := NackBy(cfg, kp, p, Some(x)), NackBy(cfg, kq, q, Some(x));
    var r1 := Replied(r, p, m);
    var v1 := v.(cores := v.cores[p := kp], lines := v.lines[a := r1]);
    OffersTo(cfg, v, a, p, x, kp, v1);
    assert r1.replies == [m] && r1.replies + [n] == [m, n];
    OffersAnyway(cfg, v.cores[q], q, a, r, kq, r1.pending, r1.replies);
    assert v1.lines[a := Replied(r1, q, n)] == v'.lines;
    OffersTo(cfg, v1, a, q, x, kq, v');
  }
}
