/** Applying the migrations a checkpoint lacks. */
module UpgradeSchedule {
  import opened Graphs
  import opened Upgrader

  function Upgrades(reg: Registry, s: set<Tag>): (r: set<Tag>) {
    set t | t in s && t in reg && reg[t].kind.Upgrade?
  }

  function Downgrades(reg: Registry, s: set<Tag>): (r: set<Tag>) {
    set t | t in s && t in reg && reg[t].kind.Downgrade?
  }

  /** The scripts to run on a checkpoint with these tags. */
  function Missing(reg: Registry, tags: set<Tag>): set<Tag> {
    (Upgrades(reg, reg.Keys) - tags) + (Downgrades(reg, reg.Keys) * tags)
  }

  predicate Ready(reg: Registry, tags: set<Tag>, t: Tag)
    requires t in reg
  {
    forall d | d in reg[t].depends :: d in tags
  }

  function ReadySet(reg: Registry, tags: set<Tag>, todo: set<Tag>): set<Tag> {
    set t | t in todo && t in reg && Ready(reg, tags, t)
  }

  function AfterRound(reg: Registry, tags: set<Tag>, round: set<Tag>): set<Tag> {
    tags + Upgrades(reg, round) - Downgrades(reg, round)
  }

  datatype Outcome = Done(tags: set<Tag>) | Impossible(left: set<Tag>)

  /** The rounds as a function of the tags alone. */
  function Schedule(reg: Registry, tags: set<Tag>, todo: set<Tag>): Outcome
    decreases |todo|
  {
    if todo == {} then Done(tags)
    else
      var ready := ReadySet(reg, tags, todo);
      if ready == {} then Impossible(todo)
      else
        SmallerWithout(todo, ready);
        Schedule(reg, AfterRound(reg, tags, ready), todo - ready)
  }

  lemma SmallerWithout(s: set<Tag>, part: set<Tag>)
    requires part <= s && part != {}
    ensures |s - part| < |s|
  {
  }

  /** What is still to do concerns absent upgrades and present downgrades. */
  predicate Pending(reg: Registry, tags: set<Tag>, todo: set<Tag>) {
    && todo <= reg.Keys
    && Upgrades(reg, todo) !! tags
    && Downgrades(reg, todo) <= tags
  }

  function AfterOne(reg: Registry, tags: set<Tag>, t: Tag): set<Tag>
    requires t in reg
  {
    if reg[t].kind.Upgrade? then tags + {t} else tags - {t}
  }

  lemma RoundStep(reg: Registry, tags: set<Tag>, part: set<Tag>, t: Tag)
    requires t in reg && t !in part
    ensures AfterRound(reg, tags, part + {t}) == AfterOne(reg, AfterRound(reg, tags, part), t)
  {
  }

  lemma NamesMore(s: seq<Tag>, t: Tag)
    ensures Names(s + [t]) == Names(s) + {t}
  {
  }

  /** A downgrader finds its tag. */
  lemma StillThere(reg: Registry, tags: set<Tag>, ready: set<Tag>, part: set<Tag>, t: Tag)
    requires Pending(reg, tags, ready) && t in ready && t !in part && !reg[t].kind.Upgrade?
    ensures t in AfterRound(reg, tags, part)
  {
  }

  /** Applies one round in whatever order the set of ready scripts is enumerated. A
      downgrade never removes an absent tag. */
  method ApplyRound(reg: Registry, tags: set<Tag>, ready: set<Tag>) returns (tags': set<Tag>, order: seq<Tag>)
    requires Pending(reg, tags, ready)
    ensures tags' == AfterRound(reg, tags, ready)
    ensures Names(order) == ready && |order| == |ready|
  {
    tags', order := tags, [];
    var rest := ready;
    assert ready - rest == {} && AfterRound(reg, tags, {}) == tags;
    while rest != {}
      invariant rest <= ready && Names(order) == ready - rest && |order| + |rest| == |ready|
      invariant tags' == AfterRound(reg, tags, ready - rest)
      decreases |rest|
    {
      var t :| t in rest;
      ghost var part := ready - rest;
      if reg[t].kind.Upgrade? {
        tags' := tags' + {t};
      } else {
        StillThere(reg, tags, ready, part, t);
        assert t in tags';
        tags' := tags' - {t};
      }
      RoundStep(reg, tags, part, t);
      NamesMore(order, t);
      rest, order := rest - {t}, order + [t];
      assert ready - rest == part + {t};
    }
    assert ready - rest == ready;
  }

  /** Every script in the log has its dependencies among the first tags or before it. */
  ghost predicate DependenciesFirst(reg: Registry, tags: set<Tag>, log: seq<Tag>) {
    forall k | 0 <= k < |log| :: log[k] in reg && forall d | d in reg[log[k]].depends :: d in tags + Names(log[..k])
  }

  /** The round of each script began at `began`, after whole rounds only, and the
      dependencies of the script were among the tags of that moment. */
  ghost predicate RoundsReady(reg: Registry, tags: set<Tag>, log: seq<Tag>, began: seq<nat>) {
    && |began| == |log|
    && (forall k | 0 <= k < |log| :: began[k] <= k && forall j | began[k] <= j <= k :: began[j] == began[k])
    && (forall k | 0 <= k < |log| ::
          log[k] in reg && forall d | d in reg[log[k]].depends :: d in AfterRound(reg, tags, Names(log[..began[k]])))
  }

  ghost predicate OnlyUpgrades(reg: Registry) {
    forall t | t in reg :: reg[t].kind.Upgrade?
  }

  lemma NamesConcat(a: seq<Tag>, b: seq<Tag>)
    ensures Names(a + b) == Names(a) + Names(b)
  {
  }

  lemma PendingAfter(reg: Registry, now: set<Tag>, todo: set<Tag>, ready: set<Tag>)
    requires Pending(reg, now, todo) && ready <= todo
    ensures Pending(reg, AfterRound(reg, now, ready), todo - ready)
  {
  }

  /** With upgraders only no tag is ever removed. */
  lemma UpgradersFirst(reg: Registry, tags: set<Tag>, log: seq<Tag>, began: seq<nat>)
    requires OnlyUpgrades(reg) && RoundsReady(reg, tags, log, began)
    ensures DependenciesFirst(reg, tags, log)
  {
    forall k | 0 <= k < |log|
      ensures log[k] in reg && forall d | d in reg[log[k]].depends :: d in tags + Names(log[..k])
    {
      var before := log[..began[k]];
      assert Names(before) <= Names(log[..k]);
      assert AfterRound(reg, tags, Names(before)) <= tags + Names(before);
    }
  }

  function Began(began: seq<nat>, start: nat, n: nat): (r: seq<nat>)
    ensures |r| == |began| + n
    ensures forall k | 0 <= k < |r| :: r[k] == if k < |began| then began[k] else start
  {
    began + seq(n, k => start)
  }

  lemma RoundsMore(reg: Registry, tags: set<Tag>, now: set<Tag>, todo: set<Tag>, log: seq<Tag>, began: seq<nat>, order: seq<Tag>)
    requires now == AfterRound(reg, tags, Names(log)) && RoundsReady(reg, tags, log, began)
    requires Names(order) == ReadySet(reg, now, todo)
    ensures RoundsReady(reg, tags, log + order, Began(began, |log|, |order|))
  {
    var both, began' := log + order, Began(began, |log|, |order|);
    forall k | 0 <= k < |both|
      ensures began'[k] <= k && both[k] in reg
      ensures forall d | d in reg[both[k]].depends :: d in AfterRound(reg, tags, Names(both[..began'[k]]))
    {
      if k < |log| {
        assert both[..began[k]] == log[..began[k]] && both[k] == log[k];
      } else {
        assert both[k] == order[k - |log|] && order[k - |log|] in Names(order);
        assert both[..|log|] == log;
      }
    }
  }

  lemma LogCount(all: set<Tag>, todo: set<Tag>, ready: set<Tag>, log: seq<Tag>, order: seq<Tag>)
    requires ready <= todo <= all
    requires Names(log) == all - todo && |log| == |Names(log)|
    requires Names(order) == ready && |order| == |ready|
    ensures Names(log + order) == all - (todo - ready) && |log + order| == |Names(log + order)|
  {
  }

  /** Where the loop stands after `log` has been applied. */
  ghost predicate Progress(reg: Registry, tags: set<Tag>, now: set<Tag>, todo: set<Tag>, log: seq<Tag>, began: seq<nat>) {
    var all := Missing(reg, tags);
    && todo <= all && Pending(reg, now, todo)
    && Schedule(reg, tags, all) == Schedule(reg, now, todo)
    && Names(log) == all - todo && |log| == |Names(log)|
    && now == AfterRound(reg, tags, Names(log)) && RoundsReady(reg, tags, log, began)
  }

  lemma ProgressStep(reg: Registry, tags: set<Tag>, now: set<Tag>, todo: set<Tag>, log: seq<Tag>, began: seq<nat>,
                     ready: set<Tag>, order: seq<Tag>)
    requires Progress(reg, tags, now, todo, log, began)
    requires ready == ReadySet(reg, now, todo) && ready != {}
    requires Names(order) == ready && |order| == |ready|
    ensures Progress(reg, tags, AfterRound(reg, now, ready), todo - ready, log + order, Began(began, |log|, |order|))
  {
    LogCount(Missing(reg, tags), todo, ready, log, order);
    PendingAfter(reg, now, todo, ready);
    RoundsMore(reg, tags, now, todo, log, began, order);
    NamesConcat(log, order);
    RoundsCompose(reg, tags, Names(log), ready);
  }

  lemma ProgressStart(reg: Registry, tags: set<Tag>)
    ensures Progress(reg, tags, tags, Missing(reg, tags), [], [])
  {
    assert Names([]) == {};
    assert AfterRound(reg, tags, {}) == tags;
  }

  /** Every script lacks one of its dependencies. */
  ghost predicate Waits(reg: Registry, now: set<Tag>, todo: set<Tag>) {
    forall t | t in todo :: t in reg && exists d :: d in reg[t].depends && d !in now
  }

  lemma AllWait(reg: Registry, now: set<Tag>, todo: set<Tag>)
    requires todo <= reg.Keys && ReadySet(reg, now, todo) == {}
    ensures Waits(reg, now, todo)
  {
    forall t | t in todo ensures exists d :: d in reg[t].depends && d !in now {
      assert t !in ReadySet(reg, now, todo);
    }
  }

  lemma ProgressEnd(reg: Registry, tags: set<Tag>, now: set<Tag>, todo: set<Tag>, log: seq<Tag>, began: seq<nat>)
    requires Progress(reg, tags, now, todo, log, began)
    requires todo == {} || ReadySet(reg, now, todo) == {}
    ensures Schedule(reg, tags, Missing(reg, tags)) == if todo == {} then Done(now) else Impossible(todo)
    ensures |log| == |Names(log)| && Names(log) <= Missing(reg, tags) && RoundsReady(reg, tags, log, began)
    ensures todo == {} ==> Names(log) == Missing(reg, tags)
    ensures OnlyUpgrades(reg) ==> DependenciesFirst(reg, tags, log)
  {
    if OnlyUpgrades(reg) {
      UpgradersFirst(reg, tags, log, began);
    }
  }

  lemma ProgressFails(reg: Registry, tags: set<Tag>, now: set<Tag>, todo: set<Tag>, log: seq<Tag>, began: seq<nat>)
    requires Progress(reg, tags, now, todo, log, began) && ReadySet(reg, now, todo) == {}
    ensures todo == Missing(reg, tags) - Names(log) && Waits(reg, AfterRound(reg, tags, Names(log)), todo)
  {
    AllWait(reg, now, todo);
  }

  /** The loop that applies all missing migrations; `began` says for each script of the log
      where its round began. */
  method ApplyAll(reg: Registry, tags: set<Tag>) returns (r: Outcome, log: seq<Tag>, began: seq<nat>, rounds: nat)
    ensures r == Schedule(reg, tags, Missing(reg, tags))
    ensures |log| == |Names(log)| && Names(log) <= Missing(reg, tags)
    ensures r.Done? ==> Names(log) == Missing(reg, tags)
    ensures rounds <= |Missing(reg, tags)|
    ensures RoundsReady(reg, tags, log, began)
    ensures r.Done? ==> r.tags == AfterRound(reg, tags, Missing(reg, tags))
    ensures r.Impossible? ==>
            && r.left == Missing(reg, tags) - Names(log) && r.left != {}
            && Waits(reg, AfterRound(reg, tags, Names(log)), r.left)
    ensures OnlyUpgrades(reg) ==> DependenciesFirst(reg, tags, log)
  {
    var now, todo := tags, Missing(reg, tags);
    log, began, rounds := [], [], 0;
    ProgressStart(reg, tags);
    while todo != {}
      invariant Progress(reg, tags, now, todo, log, began)
      invariant rounds + |todo| <= |Missing(reg, tags)|
      decreases |todo|
    {
      var ready := ReadySet(reg, now, todo);
      if ready == {} {
        ProgressEnd(reg, tags, now, todo, log, began);
        ProgressFails(reg, tags, now, todo, log, began);
        return Impossible(todo), log, began, rounds;
      }
      SmallerWithout(todo, ready);
      var next, order := ApplyRound(reg, now, ready);
      ProgressStep(reg, tags, now, todo, log, began, ready, order);
      began := Began(began, |log|, |order|);
      now, todo, log, rounds := next, todo - ready, log + order, rounds + 1;
    }
    ProgressEnd(reg, tags, now, todo, log, began);
    r := Done(now);
  }

  // ---------- What a run leaves behind ----------

  /** The tags a finished run leaves: all upgrades present, all downgrades absent, and
      nothing else changed. */
  lemma {:induction false} FinalTags(reg: Registry, tags: set<Tag>, todo: set<Tag>)
    requires Pending(reg, tags, todo) && Schedule(reg, tags, todo).Done?
    ensures Schedule(reg, tags, todo).tags == AfterRound(reg, tags, todo)
    decreases |todo|
  {
    if todo == {} {
      assert AfterRound(reg, tags, todo) == tags;
    } else {
      var ready := ReadySet(reg, tags, todo);
      SmallerWithout(todo, ready);
      PendingAfter(reg, tags, todo, ready);
      FinalTags(reg, AfterRound(reg, tags, ready), todo - ready);
      RoundsCompose(reg, tags, ready, todo - ready);
      assert ready + (todo - ready) == todo;
    }
  }

  lemma RoundsCompose(reg: Registry, tags: set<Tag>, a: set<Tag>, b: set<Tag>)
    requires a !! b
    ensures AfterRound(reg, AfterRound(reg, tags, a), b) == AfterRound(reg, tags, a + b)
  {
  }

  /** Main result: a run that does not give up ends with every upgrade tag added and every
      downgrade tag removed, and a second run finds nothing to do. */
  lemma RunIsComplete(reg: Registry, tags: set<Tag>)
    requires Schedule(reg, tags, Missing(reg, tags)).Done?
    ensures var final := Schedule(reg, tags, Missing(reg, tags)).tags;
            && final == tags + Upgrades(reg, reg.Keys) - Downgrades(reg, reg.Keys)
            && Missing(reg, final) == {}
            && Schedule(reg, final, Missing(reg, final)) == Done(final)
  {
    var todo := Missing(reg, tags);
    FinalTags(reg, tags, todo);
    assert Upgrades(reg, todo) == Upgrades(reg, reg.Keys) - tags;
    assert Downgrades(reg, todo) == Downgrades(reg, reg.Keys) * tags;
    var final := Schedule(reg, tags, todo).tags;
    assert final == tags + Upgrades(reg, reg.Keys) - Downgrades(reg, reg.Keys);
    assert Missing(reg, final) == {};
  }

  // ---------- With upgraders only, success is acyclicity ----------

  lemma UpgradeRound(reg: Registry, now: set<Tag>, ready: set<Tag>)
    requires OnlyUpgrades(reg) && ready <= reg.Keys
    ensures AfterRound(reg, now, ready) == now + ready
  {
  }

  /** Script `t` needs script `d`, and both are among `todo`. */
  ghost function Needs(reg: Registry, todo: set<Tag>): (Tag, Tag) -> bool {
    (t: Tag, d: Tag) => t in todo && t in reg && d in todo && d in reg[t].depends
  }

  /** If nothing is ready, everything waits for something else that is still to do. */
  lemma NothingReady(reg: Registry, tags: set<Tag>, todo: set<Tag>)
    requires Closed(reg) && todo <= reg.Keys && reg.Keys <= tags + todo
    requires ReadySet(reg, tags, todo) == {}
    ensures Stuck(Needs(reg, todo), todo)
  {
    forall t | t in todo ensures HasSuccessor(Needs(reg, todo), todo, t) {
      assert t !in ReadySet(reg, tags, todo);
      var d :| d in reg[t].depends && d !in tags;
      assert Needs(reg, todo)(t, d);
    }
  }

  lemma NothingReadyHasCycle(reg: Registry, tags: set<Tag>, todo: set<Tag>) returns (cycle: seq<Tag>)
    requires Closed(reg) && todo != {} && todo <= reg.Keys && reg.Keys <= tags + todo
    requires ReadySet(reg, tags, todo) == {}
    ensures IsCycle(Needs(reg, todo), cycle)
  {
    var t :| t in todo;
    NothingReady(reg, tags, todo);
    cycle := StuckSetHasCycle(Needs(reg, todo), todo, t);
  }

  /** A cycle within the scripts to do never gets ready. */
  lemma CycleBlocks(reg: Registry, tags: set<Tag>, todo: set<Tag>, cycle: seq<Tag>, t: Tag)
    requires todo !! tags && IsCycle(Needs(reg, todo), cycle) && t in cycle
    ensures t !in ReadySet(reg, tags, todo)
  {
    var i :| 0 <= i < |cycle| && cycle[i] == t;
    var j := if i == |cycle| - 1 then 0 else i;
    assert cycle[j] == t;
    assert EdgeAt(Needs(reg, todo), cycle, j);
  }

  lemma CycleStays(reg: Registry, tags: set<Tag>, todo: set<Tag>, cycle: seq<Tag>)
    requires todo !! tags && IsCycle(Needs(reg, todo), cycle)
    ensures IsCycle(Needs(reg, todo - ReadySet(reg, tags, todo)), cycle)
  {
    var rest := todo - ReadySet(reg, tags, todo);
    forall i | 0 <= i < |cycle| - 1 ensures EdgeAt(Needs(reg, rest), cycle, i) {
      assert EdgeAt(Needs(reg, todo), cycle, i);
      CycleBlocks(reg, tags, todo, cycle, cycle[i]);
      CycleBlocks(reg, tags, todo, cycle, cycle[i + 1]);
    }
  }

  lemma {:induction false} CycleNeverDone(reg: Registry, tags: set<Tag>, todo: set<Tag>, cycle: seq<Tag>)
    requires OnlyUpgrades(reg) && todo <= reg.Keys && todo !! tags && IsCycle(Needs(reg, todo), cycle)
    ensures Schedule(reg, tags, todo).Impossible?
    decreases |todo|
  {
    assert EdgeAt(Needs(reg, todo), cycle, 0);
    var ready := ReadySet(reg, tags, todo);
    if ready != {} {
      SmallerWithout(todo, ready);
      CycleStays(reg, tags, todo, cycle);
      UpgradeRound(reg, tags, ready);
      CycleNeverDone(reg, AfterRound(reg, tags, ready), todo - ready, cycle);
    }
  }

  lemma {:induction false} ImpossibleHasCycle(reg: Registry, tags: set<Tag>, todo: set<Tag>) returns (cycle: seq<Tag>)
    requires OnlyUpgrades(reg) && Closed(reg) && todo <= reg.Keys && reg.Keys <= tags + todo
    requires Schedule(reg, tags, todo).Impossible?
    ensures IsCycle(Needs(reg, todo), cycle)
    decreases |todo|
  {
    var ready := ReadySet(reg, tags, todo);
    if ready == {} {
      cycle := NothingReadyHasCycle(reg, tags, todo);
    } else {
      SmallerWithout(todo, ready);
      UpgradeRound(reg, tags, ready);
      cycle := ImpossibleHasCycle(reg, AfterRound(reg, tags, ready), todo - ready);
      forall i | 0 <= i < |cycle| - 1 ensures EdgeAt(Needs(reg, todo), cycle, i) {
        assert EdgeAt(Needs(reg, todo - ready), cycle, i);
      }
    }
  }

  /** Main result: with upgraders only and resolved dependencies, the migration succeeds
      exactly if the dependencies among the missing tags have no cycle. */
  lemma SucceedsWhenAcyclic(reg: Registry, tags: set<Tag>)
    requires OnlyUpgrades(reg) && Closed(reg)
    ensures Schedule(reg, tags, Missing(reg, tags)).Done? <==> Acyclic(Needs(reg, Missing(reg, tags)))
  {
    var todo := Missing(reg, tags);
    assert Upgrades(reg, reg.Keys) == reg.Keys && Downgrades(reg, reg.Keys) == {};
    if Schedule(reg, tags, todo).Impossible? {
      var cycle := ImpossibleHasCycle(reg, tags, todo);
    } else {
      forall cycle: seq<Tag> ensures !IsCycle(Needs(reg, todo), cycle) {
        if IsCycle(Needs(reg, todo), cycle) {
          CycleNeverDone(reg, tags, todo, cycle);
        }
      }
    }
  }
}
