/** A core's transaction as a function of its own past: the steps of its program alone. */
module HtmHistory {
  import opened Basics
  import opened HtmConfig
  import opened HtmModel
  import opened HtmDecisions
  import HtmChains
  import HtmSerial

  /** What the steps of one core's program add up to: how often it began, whether it is in a
      transaction and in which mode, how often it aborted since it last committed, when it began
      first since then, what it has written in this attempt, and what it read before writing. */
  datatype History = History(begun: nat, running: bool, powered: bool, aborts: nat, first: nat,
                             written: map<Addr, Value>, read: set<Addr>)

  function After(h: History, c: nat, e: Step): History {
    match e
    case Begin(d, powered, now) =>
      if d == c then History(h.begun + 1, true, powered, h.aborts, if h.aborts == 0 then now else h.first, map[], {}) else h
    case Read(d, a) => if d == c && a !in h.written then h.(read := h.read + {a}) else h
    case Write(d, a, v) => if d == c then h.(written := h.written[a := v]) else h
    case Commit(d) => if d == c then h.(running := false, powered := false, aborts := 0, written := map[], read := {}) else h
    case Abort(d) =>
      if d == c then h.(running := false, powered := false, aborts := h.aborts + 1, written := map[], read := {}) else h
    case _ => h
  }

  function HistoryOf(steps: seq<Step>, c: nat): History {
    if steps == [] then History(0, false, false, 0, 0, map[], {})
    else After(HistoryOf(steps[..|steps| - 1], c), c, steps[|steps| - 1])
  }

  predicate Agrees(k: Core, h: History) {
    && k.uid == h.begun && k.inTx == h.running && k.power == h.powered && k.retries == h.aborts
    && (k.inTx || k.retries > 0 ==> k.stamp == h.first)
    && k.writeVals == h.written && k.readVals.Keys == h.read
  }

  /** Nothing the program did is changed. */
  predicate SameProgram(k: Core, k': Core) {
    && k'.uid == k.uid && k'.inTx == k.inTx && k'.power == k.power && k'.retries == k.retries && k'.stamp == k.stamp
    && k'.writeVals == k.writeVals && k'.readVals == k.readVals
  }

  lemma OthersKeep(cfg: Config, s: State, e: Step, c: nat)
    requires Enabled(cfg, s, e) && c < |s.cores| && (e.Respond? || e.Deliver?)
    ensures |Next(cfg, s, e).cores| == |s.cores| && SameProgram(s.cores[c], Next(cfg, s, e).cores[c])
  {
    if e.Respond? {
      AnsweredExactly(cfg, s, e);
    } else if SomeNack(e.order) {
      var first, eldest, lowest := NackedExactly(cfg, s, e);
    } else {
      GrantedExactly(cfg, s, e);
    }
  }

  lemma AgreesStep(cfg: Config, s: State, e: Step, c: nat, h: History)
    requires Enabled(cfg, s, e) && c < |s.cores| && Agrees(s.cores[c], h)
    ensures |Next(cfg, s, e).cores| == |s.cores| && Agrees(Next(cfg, s, e).cores[c], After(h, c, e))
  {
    if e.Respond? || e.Deliver? {
      OthersKeep(cfg, s, e, c);
    }
  }

  /** Main result: in every run the state of a core's transaction is what the steps of its own
      program add up to, whatever the other cores do. */
  lemma {:induction false} StateIsHistory(cfg: Config, n: nat, steps: seq<Step>, c: nat)
    requires Run(cfg, n, steps).Some? && c < n
    ensures |Run(cfg, n, steps).value.cores| == n && Agrees(Run(cfg, n, steps).value.cores[c], HistoryOf(steps, c))
  {
    if steps != [] {
      var before := steps[..|steps| - 1];
      StateIsHistory(cfg, n, before, c);
      AgreesStep(cfg, Run(cfg, n, before).value, steps[|steps| - 1], c, HistoryOf(before, c));
    }
  }

  /** What a commit makes permanent is what the program wrote since it last began: each block
      gets the last value written, and no other block changes. */
  lemma CommitsWhatWasWritten(cfg: Config, n: nat, steps: seq<Step>, c: nat)
    requires Run(cfg, n, steps + [Commit(c)]).Some?
    ensures Run(cfg, n, steps).Some?
    ensures var s, s', h := Run(cfg, n, steps).value, Run(cfg, n, steps + [Commit(c)]).value, HistoryOf(steps, c);
            && (forall a :: Mem(s'.memory, a) == if a in h.written then h.written[a] else Mem(s.memory, a))
            && |s'.log| == |s.log| + 1 && s'.log[..|s.log|] == s.log
            && var entry := s'.log[|s.log|];
            entry.Committed? && entry.core == c && entry.writeVals == h.written && entry.readVals.Keys == h.read
  {
    RunStep(cfg, n, steps, Commit(c));
    HtmChains.CoreCount(cfg, n, steps);
    StateIsHistory(cfg, n, steps, c);
  }

  // ---------- What was read ----------

  /** What a load returns: the transaction's own value, else forwarded data, else the committed
      value. */
  function Loaded(s: State, c: nat, a: Addr): Value
    requires c < |s.cores|
  {
    var k := s.cores[c];
    if a in k.writeVals then k.writeVals[a]
    else if a in k.consumed then k.consumed[a].value
    else if a in s.memory then s.memory[a]
    else 0
  }

  function With(m: map<Addr, set<Value>>, a: Addr, v: Value): map<Addr, set<Value>> {
    m[a := (if a in m then m[a] else {}) + {v}]
  }

  predicate IsBoundary(e: Step, c: nat) {
    (e.Begin? || e.Commit? || e.Abort?) && e.core == c
  }

  /** All values the program of core `c` loaded in this attempt, except from blocks it had
      written before. */
  function Observed(cfg: Config, n: nat, steps: seq<Step>, c: nat): map<Addr, set<Value>>
    requires Run(cfg, n, steps).Some? && c < n
  {
    if steps == [] then map[]
    else
      var before, e := steps[..|steps| - 1], steps[|steps| - 1];
      var s := Run(cfg, n, before).value;
      HtmChains.CoreCount(cfg, n, before);
      if IsBoundary(e, c) then map[]
      else if e.Read? && e.core == c && e.addr !in HistoryOf(before, c).written
      then With(Observed(cfg, n, before, c), e.addr, Loaded(s, c, e.addr))
      else Observed(cfg, n, before, c)
  }

  lemma ReadsStep(cfg: Config, s: State, e: Step, c: nat)
    requires Enabled(cfg, s, e) && c < |s.cores|
    ensures |Next(cfg, s, e).cores| == |s.cores|
    ensures Next(cfg, s, e).cores[c].readVals
         == if IsBoundary(e, c) then map[]
            else if e.Read? && e.core == c && e.addr !in s.cores[c].writeVals
            then With(s.cores[c].readVals, e.addr, Loaded(s, c, e.addr))
            else s.cores[c].readVals
  {
    if e.Respond? || e.Deliver? {
      OthersKeep(cfg, s, e, c);
    }
  }

  lemma {:induction false} ReadsAreObserved(cfg: Config, n: nat, steps: seq<Step>, c: nat)
    requires Run(cfg, n, steps).Some? && c < n
    ensures |Run(cfg, n, steps).value.cores| == n && Run(cfg, n, steps).value.cores[c].readVals == Observed(cfg, n, steps, c)
  {
    HtmChains.CoreCount(cfg, n, steps);
    if steps != [] {
      var before := steps[..|steps| - 1];
      ReadsAreObserved(cfg, n, before, c);
      StateIsHistory(cfg, n, before, c);
      ReadsStep(cfg, Run(cfg, n, before).value, steps[|steps| - 1], c);
    }
  }

  lemma {:induction false} PrefixRuns(cfg: Config, n: nat, steps: seq<Step>, i: nat)
    requires Run(cfg, n, steps).Some? && i <= |steps|
    ensures Run(cfg, n, steps[..i]).Some?
    decreases |steps|
  {
    if i < |steps| {
      var before := steps[..|steps| - 1];
      PrefixRuns(cfg, n, before, i);
      assert before[..i] == steps[..i];
    } else {
      assert steps[..i] == steps;
    }
  }

  /** Step `i` loads block `a` in the attempt that is running after `steps`, and had not written
      it before. */
  predicate LoadsAt(steps: seq<Step>, c: nat, a: Addr, i: nat) {
    && i < |steps| && steps[i] == Read(c, a) && a !in HistoryOf(steps[..i], c).written
    && forall j | i < j < |steps| :: !IsBoundary(steps[j], c)
  }

  lemma {:induction false} LoadIsObserved(cfg: Config, n: nat, steps: seq<Step>, c: nat, a: Addr, i: nat)
    requires Run(cfg, n, steps).Some? && c < n && LoadsAt(steps, c, a, i)
    ensures Run(cfg, n, steps[..i]).Some? && |Run(cfg, n, steps[..i]).value.cores| == n
    ensures a in Observed(cfg, n, steps, c) && Loaded(Run(cfg, n, steps[..i]).value, c, a) in Observed(cfg, n, steps, c)[a]
    decreases |steps|
  {
    PrefixRuns(cfg, n, steps, i);
    HtmChains.CoreCount(cfg, n, steps[..i]);
    var before := steps[..|steps| - 1];
    if i < |before| {
      assert before[..i] == steps[..i];
      LoadIsObserved(cfg, n, before, c, a, i);
      assert !IsBoundary(steps[|before|], c);
    }
  }

  lemma CommitFindsReads(cfg: Config, n: nat, steps: seq<Step>, c: nat)
    requires Run(cfg, n, steps + [Commit(c)]).Some? && c < n
    ensures Run(cfg, n, steps).Some?
    ensures forall a | a in Observed(cfg, n, steps, c) ::
              forall v | v in Observed(cfg, n, steps, c)[a] :: v == Mem(Run(cfg, n, steps).value.memory, a)
  {
    RunStep(cfg, n, steps, Commit(c));
    HtmSerial.InvAlways(cfg, n, steps);
    HtmSerial.InvAlways(cfg, n, steps + [Commit(c)]);
    ReadsAreObserved(cfg, n, steps, c);
    var s, s' := Run(cfg, n, steps).value, Run(cfg, n, steps + [Commit(c)]).value;
    assert s'.log[|s.log|] == Committed(c, s.cores[c].readVals, s.cores[c].writeVals);
    assert s'.log[..|s.log|] == s.log;
    assert HtmSerial.Agrees(HtmSerial.Replay(s.log), s'.log[|s.log|]);
  }

  /** Main result: serialisability as a program sees it. In every run, every value that a
      transaction loaded from a block it had not written, at whatever moment and from whomever,
      is the committed value of the block at the moment it commits. */
  lemma LoadsAreCommitted(cfg: Config, n: nat, steps: seq<Step>, c: nat, a: Addr, i: nat)
    requires Run(cfg, n, steps + [Commit(c)]).Some? && c < n && LoadsAt(steps, c, a, i)
    ensures Run(cfg, n, steps).Some? && Run(cfg, n, steps[..i]).Some? && |Run(cfg, n, steps[..i]).value.cores| == n
    ensures Loaded(Run(cfg, n, steps[..i]).value, c, a) == Mem(Run(cfg, n, steps).value.memory, a)
  {
    RunStep(cfg, n, steps, Commit(c));
    LoadIsObserved(cfg, n, steps, c, a, i);
    CommitFindsReads(cfg, n, steps, c);
  }

  /** An abort leaves memory and the log alone, and the core without the blocks it had written
      or held as forwarded data. */
  lemma AbortsWithoutTrace(cfg: Config, s: State, c: nat)
    requires Enabled(cfg, s, Abort(c))
    ensures var s', k := Next(cfg, s, Abort(c)), s.cores[c];
            && s'.memory == s.memory && s'.log == s.log && s'.lines == s.lines && c < |s'.cores|
            && var k' := s'.cores[c];
            && k'.writeVals == map[] && k'.readVals == map[] && k'.consumed == map[] && k'.granted == {}
            && k'.sentTo == {} && k'.prio == NC && !k'.doomed
            && (forall a :: a in k'.readable <==> a in k.readable && a !in k.writeVals && a !in k.consumed)
            && (forall a :: a in k'.writable <==> a in k.writable && a !in k.writeVals && a !in k.consumed)
  {
  }
}
