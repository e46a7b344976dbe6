/** The configuration the mechanism is meant for lets a transaction use a value that is not
    yet committed, and commit with it once its producer has. */
module HtmForward {
  import opened Basics
  import opened HtmConfig
  import opened HtmModel
  import opened HtmRuns

  /** Requester-loses conflicts, chains of any shape and depth, numeric positions, abort on a
      possible cycle, sixteen consumed blocks. */
  const CHATS := Config(RequesterLoses, false, WNDM, true, AbortOnCycle, NoWriteInFlight, false, false, 0, 0, 16)

  function Producer(): Core {
    Writer(0).(prio := Num(0), sentTo := {1})
  }

  function DataNack(): Reply {
    Nack(TxId(0, 1), Num(0), false, Some(7), 0)
  }

  function Consumer(vals: map<Addr, set<Value>>): Core {
    Fresh().(prio := Num(-1), readVals := vals, consumed := map[0 := Forwarded(7, {TxId(0, 1)})],
             everConsumed := {TxId(0, 1)})
  }

  lemma AsksForIt()
    ensures Reach(CHATS, View([Writer(0), Fresh()], map[0 := Asking(1, {0}, [])], map[], []))
  {
    AllBegin(CHATS, 2);
    assert Begun(2, 2) == [Fresh(), Fresh()];
    Claims(CHATS, Start([Fresh(), Fresh()]), 0, 0);
    assert [Fresh(), Fresh()][0 := Writer(0)] == [Writer(0), Fresh()];
    Asks(CHATS, Start([Writer(0), Fresh()]), 1, 0, true);
    assert CoreIds(2) - {1} == {0};
    assert map[][0 := Asking(1, {0}, [])] == map[0 := Asking(1, {0}, [])];
  }

  lemma MayOffer()
    ensures CanOffer(CHATS, Writer(0), 0, Asking(1, {0}, [])) && Offered(CHATS, Writer(0), 0, Asking(1, {0}, [])) == Producer()
  {
    assert Writer(0).sentTo + {1} == {1};
  }

  lemma GetsIt()
    ensures Reach(CHATS, View([Producer(), Fresh()], map[0 := Asking(1, {}, [DataNack()])], map[], []))
  {
    AsksForIt();
    var r := Asking(1, {0}, []);
    MayOffer();
    var v := View([Writer(0), Fresh()], map[0 := r], map[], []);
    Offers(CHATS, v, 0, 0);
    assert Offer(CHATS, v, 0, 0) == DataNack();
    OfferReplied();
    assert [Writer(0), Fresh()][0 := Producer()] == [Producer(), Fresh()];
  }

  lemma OfferReplied()
    ensures Replied(Asking(1, {0}, []), 0, DataNack()) == Asking(1, {}, [DataNack()])
    ensures map[0 := Asking(1, {0}, [])][0 := Asking(1, {}, [DataNack()])] == map[0 := Asking(1, {}, [DataNack()])]
  {
    assert {0} - {0} == {} && [] + [DataNack()] == [DataNack()];
  }

  lemma UsesIt()
    ensures Reach(CHATS, Start([Producer(), Consumer(map[])]))
  {
    GetsIt();
    var m := Merged(Num(0), false, Some(7), 0, 0);
    assert (map[0 := Forwarded(7, {TxId(0, 1)})]).Keys == {0};
    assert Consumed(CHATS, Fresh(), 0, m, {TxId(0, 1)}, false) == Consumer(map[]);
    var lines := map[0 := Asking(1, {}, [DataNack()])];
    TakesOffer(CHATS, View([Producer(), Fresh()], lines, map[], []), 0, DataNack());
    assert lines - {0} == map[];
    assert [Producer(), Fresh()][1 := Consumer(map[])] == [Producer(), Consumer(map[])];
  }

  // ---------- From the first read to the second commit ----------

  function Reader(): Core {
    Consumer(map[0 := {7}])
  }

  /** The reader once its request is granted while memory holds `x`. */
  function Validated(x: Value): Core {
    Reader().(consumed := map[], granted := {0}, readable := {0}, writable := {0}, doomed := x != 7)
  }

  /** Core 0 has committed `x`. */
  function Later(x: Value, core0: Core, core1: Core, lines: map<Addr, Request>): View {
    View([core0, core1], lines, map[0 := x], [Committed(0, map[], map[0 := x])])
  }

  function Done(uid: nat, perms: set<Addr>): Core {
    IdleCore(uid, 0, 0, perms, perms)
  }

  function Checking(replies: seq<Reply>, pending: set<nat>): Request {
    Request(1, 1, true, Num(-1), false, true, pending, replies, 0)
  }

  lemma ReadsThenCommits()
    ensures Moves(CHATS, Start([Producer(), Consumer(map[])]), Read(1, 0), Start([Producer(), Reader()]))
    ensures Moves(CHATS, Start([Producer(), Reader()]), Commit(0), Later(7, Done(1, {0}), Reader(), map[]))
  {
    assert Seen(Consumer(map[]), 0) + {7} == {7};
    var p := Producer();
    assert p.readable == {0} && p.writable == {0} && p.writeVals == map[0 := 7] && map[] + p.writeVals == p.writeVals;
  }

  lemma Checks(x: Value, uid: nat)
    ensures Moves(CHATS, Later(x, Done(uid, {0}), Reader(), map[]), Issue(1, 0, true),
                  Later(x, Done(uid, {0}), Reader(), map[0 := Checking([], {0})]))
    ensures Moves(CHATS, Later(x, Done(uid, {0}), Reader(), map[0 := Checking([], {0})]), Respond(0, 0, true, false),
                  Later(x, Done(uid, {}), Reader(), map[0 := Checking([Ack], {})]))
  {
    assert CoreIds(2) - {1} == {0};
    assert {0} - {0} == {} && [] + [Ack] == [Ack];
    assert Yield(Done(uid, {0}), 0, true) == Done(uid, {});
  }

  lemma Validates(x: Value, uid: nat)
    ensures Moves(CHATS, Later(x, Done(uid, {}), Reader(), map[0 := Checking([Ack], {})]), Deliver(0, [Ack], false),
                  Later(x, Done(uid, {}), Validated(x), map[]))
  {
    var v := Later(x, Done(uid, {}), Reader(), map[0 := Checking([Ack], {})]);
    assert MergeReplies([Ack][..0]) == None && MergeReplies([Ack]) == None;
    forall s | Shows(s, v) ensures Granted(s, Reader(), 0, Checking([Ack], {})) == Validated(x) {
      var k := Granted(s, Reader(), 0, Checking([Ack], {}));
      assert k.consumed == map[] && k.granted == {0} && k.readable == {0} && k.writable == {0};
    }
    assert v.lines - {0} == map[];
  }

  lemma AsksAgain(x: Value, uid: nat, before: seq<Step>) returns (steps: seq<Step>)
    requires Gets(CHATS, before, Later(x, Done(uid, {0}), Reader(), map[]))
    ensures before < steps && Gets(CHATS, steps, Later(x, Done(uid, {}), Validated(x), map[]))
  {
    Checks(x, uid);
    Validates(x, uid);
    var v1 := Later(x, Done(uid, {0}), Reader(), map[0 := Checking([], {0})]);
    var v2 := Later(x, Done(uid, {}), Reader(), map[0 := Checking([Ack], {})]);
    GoOn(CHATS, before, Later(x, Done(uid, {0}), Reader(), map[]), Issue(1, 0, true), v1);
    GoOn(CHATS, before + [Issue(1, 0, true)], v1, Respond(0, 0, true, false), v2);
    steps := before + [Issue(1, 0, true)] + [Respond(0, 0, true, false)];
    GoOn(CHATS, steps, v2, Deliver(0, [Ack], false), Later(x, Done(uid, {}), Validated(x), map[]));
    steps := steps + [Deliver(0, [Ack], false)];
  }

  lemma CommitsLater()
    ensures Moves(CHATS, Later(7, Done(1, {}), Validated(7), map[]), Commit(1),
                  View([Done(1, {}), Done(1, {0})], map[], map[0 := 7],
                       [Committed(0, map[], map[0 := 7]), Committed(1, map[0 := {7}], map[])]))
  {
    assert map[0 := 7] + Validated(7).writeVals == map[0 := 7];
  }

  /** A run in which the second transaction reads what the first has written but not yet
      committed, waits for it, validates the value and commits. */
  lemma {:induction false} ForwardedValueCommits() returns (steps: seq<Step>)
    ensures Run(CHATS, 2, steps).Some?
    ensures Run(CHATS, 2, steps).value.log == [Committed(0, map[], map[0 := 7]), Committed(1, map[0 := {7}], map[])]
    ensures exists k | 0 < k < |steps| :: steps[k] == Commit(0) && steps[k - 1] == Read(1, 0)
  {
    UsesIt();
    var v := Start([Producer(), Consumer(map[])]);
    steps :| Gets(CHATS, steps, v);
    ghost var n := |steps|;
    ReadsThenCommits();
    GoOn(CHATS, steps, v, Read(1, 0), Start([Producer(), Reader()]));
    steps := steps + [Read(1, 0)];
    GoOn(CHATS, steps, Start([Producer(), Reader()]), Commit(0), Later(7, Done(1, {0}), Reader(), map[]));
    steps := steps + [Commit(0)];
    steps := AsksAgain(7, 1, steps);
    CommitsLater();
    GoOn(CHATS, steps, Later(7, Done(1, {}), Validated(7), map[]), Commit(1),
         View([Done(1, {}), Done(1, {0})], map[], map[0 := 7],
              [Committed(0, map[], map[0 := 7]), Committed(1, map[0 := {7}], map[])]));
    steps := steps + [Commit(1)];
    assert steps[n + 1] == Commit(0) && steps[n] == Read(1, 0);
  }

  // ---------- A consumer that nobody asks ----------

  /** Core 0 after it has aborted, and in its second attempt. */
  function Aborted(): Core { IdleCore(1, 1, 0, {}, {}) }
  function Again(): Core { IdleCore(2, 1, 0, {}, {}).(inTx := true) }
  function Owner(): Core { Again().(readable := {0}, writable := {0}) }
  function Overwriter(x: Value): Core { Owner().(granted := {0}, writeVals := map[0 := x]) }

  lemma Aborts()
    ensures Moves(CHATS, Start([Producer(), Reader()]), Abort(0), Start([Aborted(), Reader()]))
  {
    assert Producer().writeVals.Keys + Producer().consumed.Keys == {0};
    assert Producer().readable - {0} == {} && Producer().writable - {0} == {};
    assert AbortCore(Producer()) == Aborted();
    assert [Producer(), Reader()][0 := Aborted()] == [Aborted(), Reader()];
  }

  lemma ProducerAborts()
    ensures Reach(CHATS, Start([Again(), Reader()]))
  {
    UsesIt();
    ReadsThenCommits();
    Go(CHATS, Start([Producer(), Consumer(map[])]), Read(1, 0), Start([Producer(), Reader()]));
    Aborts();
    Go(CHATS, Start([Producer(), Reader()]), Abort(0), Start([Aborted(), Reader()]));
    var now := BeginsLater(CHATS, Start([Aborted(), Reader()]), 0);
    assert BeginCore(Aborted(), false, now) == Again();
    assert [Aborted(), Reader()][0 := Again()] == [Again(), Reader()];
  }

  /** The consumer has no permission, so the request for the block passes it by. */
  lemma PassedBy()
    ensures Reach(CHATS, Start([Owner(), Reader()]))
  {
    ProducerAborts();
    assert Reader().readable - {0} == Reader().readable && Reader().writable - {0} == Reader().writable;
    Acquires(CHATS, Start([Again(), Reader()]), 0, 0, true);
    assert Allowed(Again(), 0, true) == Owner();
    assert [Again(), Reader()][0 := Owner()] == [Owner(), Reader()];
  }

  lemma Overtaken(x: Value)
    ensures Reach(CHATS, Later(x, Done(2, {0}), Reader(), map[]))
  {
    PassedBy();
    Writes(CHATS, Start([Owner(), Reader()]), 0, 0, x);
    assert WriteCore(Owner(), 0, x) == Overwriter(x);
    assert [Owner(), Reader()][0 := Overwriter(x)] == [Overwriter(x), Reader()];
    var v := Start([Overwriter(x), Reader()]);
    Commits(CHATS, v, 0);
    assert [Overwriter(x), Reader()][0 := Done(2, {0})] == [Done(2, {0}), Reader()];
    assert map[] + map[0 := x] == map[0 := x] && [] + [Committed(0, map[], map[0 := x])] == [Committed(0, map[], map[0 := x])];
    assert Committing(v, 0) == Later(x, Done(2, {0}), Reader(), map[]);
  }

  /** For every value there is a run in which the producer aborts and the block is committed
      with that value while the consumer goes on undisturbed: only the comparison at its
      validation decides, and dooms it exactly if it has read another value. */
  lemma {:induction false} ValidationDecides(x: Value) returns (k: nat, steps: seq<Step>)
    ensures k < |steps| && Run(CHATS, 2, steps[..k]).Some? && Run(CHATS, 2, steps).Some?
    ensures var s := Run(CHATS, 2, steps[..k]).value;
            && s.log == [Committed(0, map[], map[0 := x])] && |s.cores| == 2
            && !s.cores[1].doomed && 0 in s.cores[1].consumed && s.cores[1].readVals == map[0 := {7}]
    ensures var s := Run(CHATS, 2, steps).value;
            && s.log == [Committed(0, map[], map[0 := x])] && |s.cores| == 2
            && s.cores[1].inTx && s.cores[1].consumed == map[] && (s.cores[1].doomed <==> x != 7)
  {
    Overtaken(x);
    var v := Later(x, Done(2, {0}), Reader(), map[]);
    var before: seq<Step> :| Gets(CHATS, before, v);
    k := |before|;
    steps := AsksAgain(x, 2, before);
    assert steps[..k] == before;
  }
}
