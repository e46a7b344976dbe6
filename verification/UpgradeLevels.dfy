/** When a migration succeeds, for any mix of upgraders and downgraders. */
module UpgradeLevels {
  import opened Upgrader
  import opened UpgradeSchedule

  /** A level for every script to do. */
  type Levels = map<Tag, nat>

  /** What dependency `d` asks of a script on level `n`: an upgrade to do comes earlier, a tag
      to be removed goes no earlier, and any other tag is there. */
  predicate Meets(reg: Registry, tags: set<Tag>, todo: set<Tag>, level: Levels, d: Tag, n: nat)
    requires level.Keys == todo <= reg.Keys
  {
    if d !in todo then d in tags
    else if reg[d].kind.Upgrade? then level[d] < n
    else n <= level[d]
  }

  /** The script is on the first level that its missing dependencies leave. */
  predicate AsEarly(reg: Registry, todo: set<Tag>, level: Levels, t: Tag)
    requires level.Keys == todo <= reg.Keys && t in todo
  {
    level[t] == 0 ||
    exists d :: d in reg[t].depends && d in todo && reg[d].kind.Upgrade? && level[d] == level[t] - 1
  }

  predicate Placed(reg: Registry, tags: set<Tag>, todo: set<Tag>, level: Levels, t: Tag)
    requires level.Keys == todo <= reg.Keys && t in todo
  {
    && (forall d | d in reg[t].depends :: Meets(reg, tags, todo, level, d, level[t]))
    && AsEarly(reg, todo, level, t)
  }

  predicate Levelled(reg: Registry, tags: set<Tag>, todo: set<Tag>, level: Levels)
    requires todo <= reg.Keys
  {
    level.Keys == todo && forall t | t in todo :: Placed(reg, tags, todo, level, t)
  }

  // ---------- A finished run gives the levels ----------

  /** The ready scripts go on level 0, the others one level above the one they have without them. */
  function Raised(ready: set<Tag>, rest: Levels): (r: Levels)
    ensures r.Keys == ready + rest.Keys
    ensures forall t | t in ready :: r[t] == 0
    ensures forall t | t in rest && t !in ready :: r[t] == rest[t] + 1
  {
    map t | t in ready + rest.Keys :: if t in ready then 0 else rest[t] + 1
  }

  lemma ReadyPlaced(reg: Registry, tags: set<Tag>, todo: set<Tag>, rest: Levels, t: Tag)
    requires Pending(reg, tags, todo) && rest.Keys == todo - ReadySet(reg, tags, todo) && t in ReadySet(reg, tags, todo)
    ensures var level := Raised(ReadySet(reg, tags, todo), rest);
            level.Keys == todo && Placed(reg, tags, todo, level, t)
  {
    var level := Raised(ReadySet(reg, tags, todo), rest);
    assert level.Keys == todo;
    forall d | d in reg[t].depends ensures Meets(reg, tags, todo, level, d, 0) {
      assert d in tags;
      assert d in todo && reg[d].kind.Upgrade? ==> d in Upgrades(reg, todo);
    }
  }

  lemma WaitingPlaced(reg: Registry, tags: set<Tag>, todo: set<Tag>, rest: Levels, t: Tag)
    requires Pending(reg, tags, todo) && t in todo && t !in ReadySet(reg, tags, todo)
    requires var ready := ReadySet(reg, tags, todo);
             Levelled(reg, AfterRound(reg, tags, ready), todo - ready, rest)
    ensures var level := Raised(ReadySet(reg, tags, todo), rest);
            level.Keys == todo && Placed(reg, tags, todo, level, t)
  {
    var ready := ReadySet(reg, tags, todo);
    var level, now, left := Raised(ready, rest), AfterRound(reg, tags, ready), todo - ready;
    assert level.Keys == todo;
    assert Placed(reg, now, left, rest, t);
    forall d | d in reg[t].depends ensures Meets(reg, tags, todo, level, d, level[t]) {
      assert Meets(reg, now, left, rest, d, rest[t]);
      RemovedIsGone(reg, tags, ready, d);
    }
    WaitingAsEarly(reg, tags, todo, rest, t);
  }

  /** What a round adds or removes is a script of the round. */
  lemma RemovedIsGone(reg: Registry, tags: set<Tag>, ready: set<Tag>, d: Tag)
    requires ready <= reg.Keys
    ensures d in ready ==> (d in AfterRound(reg, tags, ready) <==> reg[d].kind.Upgrade?)
    ensures d !in ready ==> (d in AfterRound(reg, tags, ready) <==> d in tags)
  {
  }

  lemma WaitingAsEarly(reg: Registry, tags: set<Tag>, todo: set<Tag>, rest: Levels, t: Tag)
    requires Pending(reg, tags, todo) && t in todo && t !in ReadySet(reg, tags, todo)
    requires var ready := ReadySet(reg, tags, todo);
             Levelled(reg, AfterRound(reg, tags, ready), todo - ready, rest)
    ensures var level := Raised(ReadySet(reg, tags, todo), rest);
            level.Keys == todo && AsEarly(reg, todo, level, t)
  {
    var ready := ReadySet(reg, tags, todo);
    var level, now, left := Raised(ready, rest), AfterRound(reg, tags, ready), todo - ready;
    assert level.Keys == todo;
    assert Placed(reg, now, left, rest, t);
    if rest[t] > 0 {
      var d :| d in reg[t].depends && d in left && reg[d].kind.Upgrade? && rest[d] == rest[t] - 1;
      assert level[d] == level[t] - 1;
    } else {
      var d :| d in reg[t].depends && d !in tags;
      assert Meets(reg, now, left, rest, d, rest[t]);
      RemovedIsGone(reg, tags, ready, d);
      assert d in todo && !reg[d].kind.Upgrade? ==> d in Downgrades(reg, todo);
      assert d in ready && level[d] == level[t] - 1;
    }
  }

  lemma {:induction false} DoneIsLevelled(reg: Registry, tags: set<Tag>, todo: set<Tag>) returns (level: Levels)
    requires Pending(reg, tags, todo) && Schedule(reg, tags, todo).Done?
    ensures Levelled(reg, tags, todo, level)
    decreases |todo|
  {
    if todo == {} {
      level := map[];
    } else {
      var ready := ReadySet(reg, tags, todo);
      SmallerWithout(todo, ready);
      PendingAfter(reg, tags, todo, ready);
      var rest := DoneIsLevelled(reg, AfterRound(reg, tags, ready), todo - ready);
      level := Raised(ready, rest);
      assert level.Keys == todo;
      forall t | t in todo ensures Placed(reg, tags, todo, level, t) {
        if t in ready {
          ReadyPlaced(reg, tags, todo, rest, t);
        } else {
          WaitingPlaced(reg, tags, todo, rest, t);
        }
      }
    }
  }

  // ---------- Levels make the run succeed ----------

  /** The ready scripts are those on level 0. */
  lemma ReadyIsLowest(reg: Registry, tags: set<Tag>, todo: set<Tag>, level: Levels, t: Tag)
    requires Pending(reg, tags, todo) && Levelled(reg, tags, todo, level) && t in todo
    ensures t in ReadySet(reg, tags, todo) <==> level[t] == 0
  {
    assert Placed(reg, tags, todo, level, t);
    if level[t] == 0 {
      forall d | d in reg[t].depends ensures d in tags {
        assert Meets(reg, tags, todo, level, d, 0);
        assert d in todo && !reg[d].kind.Upgrade? ==> d in Downgrades(reg, todo);
      }
    } else {
      var d :| d in reg[t].depends && d in todo && reg[d].kind.Upgrade? && level[d] == level[t] - 1;
      assert d in Upgrades(reg, todo);
    }
  }

  lemma {:induction false} SomeLowest(reg: Registry, tags: set<Tag>, todo: set<Tag>, level: Levels, t: Tag) returns (u: Tag)
    requires todo <= reg.Keys && Levelled(reg, tags, todo, level) && t in todo
    ensures u in todo && level[u] == 0
    decreases level[t]
  {
    u := t;
    if level[t] > 0 {
      assert Placed(reg, tags, todo, level, t);
      var d :| d in reg[t].depends && d in todo && reg[d].kind.Upgrade? && level[d] == level[t] - 1;
      u := SomeLowest(reg, tags, todo, level, d);
    }
  }

  function Lowered(ready: set<Tag>, level: Levels): (r: Levels)
    ensures r.Keys == level.Keys - ready
    ensures forall t | t in r && level[t] > 0 :: r[t] == level[t] - 1
  {
    map t | t in level.Keys - ready :: if level[t] == 0 then 0 else level[t] - 1
  }

  lemma StillPlaced(reg: Registry, tags: set<Tag>, todo: set<Tag>, level: Levels, ready: set<Tag>, t: Tag)
    requires Pending(reg, tags, todo) && Levelled(reg, tags, todo, level) && t in todo && t !in ready
    requires ready <= todo && forall u | u in todo :: u in ready <==> level[u] == 0
    ensures Lowered(ready, level).Keys == todo - ready
    ensures Placed(reg, AfterRound(reg, tags, ready), todo - ready, Lowered(ready, level), t)
  {
    var rest, now := Lowered(ready, level), AfterRound(reg, tags, ready);
    assert Placed(reg, tags, todo, level, t);
    forall d | d in reg[t].depends ensures Meets(reg, now, todo - ready, rest, d, rest[t]) {
      assert Meets(reg, tags, todo, level, d, level[t]);
      RemovedIsGone(reg, tags, ready, d);
    }
    if rest[t] > 0 {
      var d :| d in reg[t].depends && d in todo && reg[d].kind.Upgrade? && level[d] == level[t] - 1;
      assert d in todo - ready && rest[d] == rest[t] - 1;
    }
  }

  lemma {:induction false} LevelledIsDone(reg: Registry, tags: set<Tag>, todo: set<Tag>, level: Levels)
    requires Pending(reg, tags, todo) && Levelled(reg, tags, todo, level)
    ensures Schedule(reg, tags, todo).Done?
    decreases |todo|
  {
    if todo != {} {
      var ready := ReadySet(reg, tags, todo);
      forall t | t in todo ensures t in ready <==> level[t] == 0 {
        ReadyIsLowest(reg, tags, todo, level, t);
      }
      var any :| any in todo;
      var lowest := SomeLowest(reg, tags, todo, level, any);
      SmallerWithout(todo, ready);
      PendingAfter(reg, tags, todo, ready);
      var rest := Lowered(ready, level);
      assert rest.Keys == todo - ready;
      forall t | t in todo - ready ensures Placed(reg, AfterRound(reg, tags, ready), todo - ready, rest, t) {
        StillPlaced(reg, tags, todo, level, ready, t);
      }
      LevelledIsDone(reg, AfterRound(reg, tags, ready), todo - ready, rest);
    }
  }

  lemma MissingPending(reg: Registry, tags: set<Tag>)
    ensures Pending(reg, tags, Missing(reg, tags))
  {
  }

  /** Main result: for any mix of upgraders and downgraders the migration succeeds exactly if the
      scripts can be put on levels: each above the missing upgrades it depends on and on the first
      level these leave, and not above a tag it depends on that is to be removed. */
  lemma SucceedsExactly(reg: Registry, tags: set<Tag>)
    ensures Missing(reg, tags) <= reg.Keys
    ensures Schedule(reg, tags, Missing(reg, tags)).Done? <==>
            exists level :: Levelled(reg, tags, Missing(reg, tags), level)
  {
    var todo := Missing(reg, tags);
    MissingPending(reg, tags);
    if Schedule(reg, tags, todo).Done? {
      var level := DoneIsLevelled(reg, tags, todo);
    }
    if level :| Levelled(reg, tags, todo, level) {
      LevelledIsDone(reg, tags, todo, level);
    }
  }

  // ---------- The rounds can miss an order that works ----------

  const X := Tag("x")
  const Y := Tag("y")
  const Z := Tag("z")

  /** `x` needs `y`, which is to be removed, and `z`, which is to be added. */
  const MIXED: Registry := map[X := Script(Upgrade, [Y, Z], []), Y := Script(Downgrade, [], []), Z := Script(Upgrade, [], [])]

  /** Applying the scripts one by one, each with its dependencies present. */
  predicate Works(reg: Registry, tags: set<Tag>, order: seq<Tag>)
    decreases |order|
  {
    order == [] ||
    (&& order[0] in reg && (forall d | d in reg[order[0]].depends :: d in tags)
     && Works(reg, AfterOne(reg, tags, order[0]), order[1..]))
  }

  lemma MissingOfMixed()
    ensures Missing(MIXED, {Y}) == {X, Y, Z} == Names([Z, X, Y])
  {
    assert MIXED.Keys == {X, Y, Z};
    assert Upgrades(MIXED, MIXED.Keys) == {X, Z} && Downgrades(MIXED, MIXED.Keys) == {Y};
  }

  lemma OrderWorks()
    ensures Works(MIXED, {Y}, [Z, X, Y])
  {
    assert [Z, X, Y][1..] == [X, Y] && [X, Y][1..] == [Y] && [Y][1..] == [];
    assert Works(MIXED, {X, Y, Z}, [Y]);
    assert Works(MIXED, {Y, Z}, [X, Y]) by {
      assert {Y, Z} + {X} == {X, Y, Z};
    }
    assert {Y} + {Z} == {Y, Z};
  }

  lemma RoundsFail()
    ensures Schedule(MIXED, {Y}, {X, Y, Z}).Impossible?
  {
    assert ReadySet(MIXED, {Y}, {X, Y, Z}) == {Y, Z} by {
      assert Z in MIXED[X].depends;
    }
    assert AfterRound(MIXED, {Y}, {Y, Z}) == {Z};
    assert {X, Y, Z} - {Y, Z} == {X};
    assert ReadySet(MIXED, {Z}, {X}) == {} by {
      assert Y in MIXED[X].depends;
    }
    assert Schedule(MIXED, {Z}, {X}).Impossible?;
  }

  /** The rounds take every script that is ready, so `y` is gone when `z` has come: the migration
      gives up although the order `z`, `x`, `y` works. */
  lemma RoundsMissAnOrder()
    ensures Works(MIXED, {Y}, [Z, X, Y]) && Names([Z, X, Y]) == Missing(MIXED, {Y})
    ensures Schedule(MIXED, {Y}, Missing(MIXED, {Y})).Impossible?
  {
    MissingOfMixed();
    OrderWorks();
    RoundsFail();
  }
}
