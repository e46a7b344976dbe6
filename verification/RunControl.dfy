/** The loops that drive a simulation from outside: taking checkpoints at given ticks and
    switching between two sets of CPUs. */
module RunControl {

  datatype Cause = LimitReached | GuestCheckpoint | OtherExit

  /** How one call of the simulator ends: at its limit, or earlier for another reason. */
  datatype Event = Limit | Guest(after: nat) | Other(after: nat)

  type Cpu = nat

  datatype Pair = Pair(from: Cpu, to: Cpu) {
    function Flip(): Pair {
      Pair(to, from)
    }
  }

  function Flips(pairs: seq<Pair>): (r: seq<Pair>)
    ensures |r| == |pairs| && forall k | 0 <= k < |r| :: r[k] == pairs[k].Flip()
  {
    seq(|pairs|, k requires 0 <= k < |pairs| => pairs[k].Flip())
  }

  function Froms(pairs: seq<Pair>): set<Cpu> {
    set k | 0 <= k < |pairs| :: pairs[k].from
  }

  function Tos(pairs: seq<Pair>): set<Cpu> {
    set k | 0 <= k < |pairs| :: pairs[k].to
  }

  /** The simulator as the scripts see it. What happens inside is a list of events; after
      the list every call reaches its limit. */
  class Simulator {
    var tick: nat
    var events: seq<Event>
    var checkpoints: seq<nat>
    var active: set<Cpu>

    ghost function Seen(): Sight
      reads this
    {
      Sight(tick, events, checkpoints)
    }

    /** Runs for at most `limit` ticks. */
    method Simulate(limit: int) returns (cause: Cause)
      requires limit >= 0
      modifies `tick, `events
      ensures old(tick) <= tick <= old(tick) + limit
      ensures cause == LimitReached ==> tick == old(tick) + limit
      ensures cause == CauseOf(old(events)) && events == Later(old(events))
    {
      if events == [] {
        tick := tick + limit;
        return LimitReached;
      }
      var e := events[0];
      events := events[1..];
      match e
      case Limit =>
        tick := tick + limit;
        cause := LimitReached;
      case Guest(after) =>
        tick := tick + if after < limit then after else limit;
        cause := GuestCheckpoint;
      case Other(after) =>
        tick := tick + if after < limit then after else limit;
        cause := OtherExit;
    }

    method Checkpoint()
      modifies `checkpoints
      ensures checkpoints == old(checkpoints) + [tick]
    {
      checkpoints := checkpoints + [tick];
    }

    /** Hands over from every first CPU to its partner; refused unless the first is active
        and the second is not. */
    method SwitchCpus(pairs: seq<Pair>) returns (ok: bool)
      modifies `active
      ensures ok <==> Froms(pairs) <= old(active) && Tos(pairs) !! old(active)
      ensures active == if ok then old(active) - Froms(pairs) + Tos(pairs) else old(active)
    {
      ok := Froms(pairs) <= active && Tos(pairs) !! active;
      if ok {
        active := active - Froms(pairs) + Tos(pairs);
      }
    }
  }

  /** Why the next call ends. */
  function CauseOf(events: seq<Event>): Cause {
    if events == [] || events[0].Limit? then LimitReached
    else if events[0].Guest? then GuestCheckpoint
    else OtherExit
  }

  function Later(events: seq<Event>): seq<Event> {
    if events == [] then [] else events[1..]
  }

  /** No call ends early. */
  predicate Quiet(events: seq<Event>) {
    forall k | 0 <= k < |events| :: events[k].Limit?
  }

  /** The events from the first on that is no checkpoint of the guest. */
  function PastGuests(events: seq<Event>): (r: seq<Event>)
    ensures r == [] || !r[0].Guest?
  {
    if events != [] && events[0].Guest? then PastGuests(events[1..]) else events
  }

  /** A goal is reached: only checkpoints of the guest come before. */
  predicate Reaches(events: seq<Event>) {
    CauseOf(PastGuests(events)) == LimitReached
  }

  lemma QuietReaches(events: seq<Event>)
    requires Quiet(events)
    ensures PastGuests(events) == events && Reaches(events) && CauseOf(events) == LimitReached && Quiet(Later(events))
  {
  }

  // ---------- Checkpoints ----------

  /** The tick `k` periods after `when`. */
  function At(when: nat, period: nat, k: nat): nat {
    if k == 0 then when else At(when, period, k - 1) + period
  }

  lemma {:induction false} AtIsProduct(when: nat, period: nat, k: nat)
    ensures At(when, period, k) == when + k * period
  {
    if k > 0 {
      AtIsProduct(when, period, k - 1);
    }
  }

  /** The ticks of the first `n` checkpoints. */
  function Schedule(when: nat, period: nat, n: nat): seq<nat> {
    if n == 0 then [] else Schedule(when, period, n - 1) + [At(when, period, n - 1)]
  }

  lemma {:induction false} ScheduleAt(when: nat, period: nat, n: nat, k: nat)
    requires k < n
    ensures |Schedule(when, period, n)| == n && Schedule(when, period, n)[k] == when + k * period
  {
    if k == n - 1 {
      ScheduleLength(when, period, n);
      AtIsProduct(when, period, k);
    } else {
      ScheduleAt(when, period, n - 1, k);
    }
  }

  lemma {:induction false} ScheduleLength(when: nat, period: nat, n: nat)
    ensures |Schedule(when, period, n)| == n
  {
    if n > 0 {
      ScheduleLength(when, period, n - 1);
    }
  }

  /** How many periods fit after the first checkpoint, with `most` checkpoints in all. */
  function Fit(when: nat, period: nat, maxTick: nat, most: int): nat
    decreases most
  {
    if most <= 1 || when + period > maxTick then 0 else 1 + Fit(when + period, period, maxTick, most - 1)
  }

  /** As many as possible: the next one would be one too many or too late. */
  lemma {:induction false} FitIsGreatest(when: nat, period: nat, maxTick: nat, most: int)
    requires when <= maxTick
    ensures var n := Fit(when, period, maxTick, most);
            && At(when, period, n) <= maxTick && (n == 0 || 1 + n <= most)
            && (1 + n >= most || At(when, period, n + 1) > maxTick)
    decreases most
  {
    if most > 1 && when + period <= maxTick {
      var n := Fit(when, period, maxTick, most);
      FitIsGreatest(when + period, period, maxTick, most - 1);
      AtLater(when, period, n - 1);
      AtLater(when, period, n);
    }
  }

  lemma {:induction false} AtLater(when: nat, period: nat, k: nat)
    ensures At(when + period, period, k) == At(when, period, k + 1)
  {
    if k > 0 {
      AtLater(when, period, k - 1);
    }
  }

  /** How many of `n` periods end with a checkpoint. One in which the guest asks for a checkpoint
      is the last, since the reason for its end is not read again. */
  function Periods(events: seq<Event>, n: nat): nat {
    if n == 0 then 0
    else
      match CauseOf(events)
      case LimitReached => 1 + Periods(Later(events), n - 1)
      case GuestCheckpoint => if Reaches(events) then 1 else 0
      case OtherExit => 0
  }

  lemma {:induction false} QuietPeriods(events: seq<Event>, n: nat)
    requires Quiet(events)
    ensures Periods(events, n) == n
  {
    if n > 0 {
      QuietReaches(events);
      QuietPeriods(Later(events), n - 1);
    }
  }

  /** Runs up to `when`, past the checkpoints the guest asks for. */
  method RunTo(sim: Simulator, when: nat) returns (cause: Cause)
    requires sim.tick <= when
    modifies sim`tick, sim`events
    ensures sim.tick <= when && (cause == LimitReached ==> sim.tick == when)
    ensures cause == CauseOf(PastGuests(old(sim.events))) && sim.events == Later(PastGuests(old(sim.events)))
  {
    cause := sim.Simulate(when - sim.tick);
    cause := RunPast(sim, when, cause, old(sim.events));
  }

  /** Goes on while the guest asks for checkpoints. */
  method RunPast(sim: Simulator, when: nat, first: Cause, ghost events: seq<Event>) returns (cause: Cause)
    requires sim.tick <= when && (first == LimitReached ==> sim.tick == when)
    requires first == CauseOf(events) && sim.events == Later(events)
    modifies sim`tick, sim`events
    ensures sim.tick <= when && (cause == LimitReached ==> sim.tick == when)
    ensures cause == CauseOf(PastGuests(events)) && sim.events == Later(PastGuests(events))
  {
    cause := first;
    ghost var rest := events;
    while cause == GuestCheckpoint
      invariant sim.tick <= when && (cause == LimitReached ==> sim.tick == when)
      invariant cause == CauseOf(rest) && sim.events == Later(rest) && PastGuests(rest) == PastGuests(events)
      decreases |sim.events|, cause == GuestCheckpoint
    {
      rest := sim.events;
      cause := sim.Simulate(when - sim.tick);
    }
  }

  /** Runs for one period; `cause` is how its first call ended. */
  method RunPeriod(sim: Simulator, period: nat) returns (cause: Cause, reached: bool)
    modifies sim`tick, sim`events
    ensures cause == CauseOf(old(sim.events)) && (reached <==> Reaches(old(sim.events)))
    ensures sim.tick <= old(sim.tick) + period && (reached ==> sim.tick == old(sim.tick) + period)
    ensures cause == LimitReached ==> reached && sim.events == Later(old(sim.events))
  {
    var goal := sim.tick + period;
    cause := sim.Simulate(period);
    var last := RunPast(sim, goal, cause, old(sim.events));
    reached := last == LimitReached;
  }

  /** How many checkpoints are taken in all. */
  function Total(events: seq<Event>, when: nat, period: nat, maxTick: nat, most: int): nat {
    if Reaches(events) then 1 + Periods(Later(PastGuests(events)), Fit(when, period, maxTick, most)) else 0
  }

  /** What is asked for, and what will happen. */
  datatype Plan = Plan(when: nat, period: nat, maxTick: nat, most: int, events: seq<Event>)

  /** What the loop sees of the simulator. */
  datatype Sight = Sight(tick: nat, events: seq<Event>, checkpoints: seq<nat>)

  /** How many checkpoints are still to come. */
  function Remaining(p: Plan, events: seq<Event>, taken: nat, simTicks: nat): nat {
    Periods(events, Fit(simTicks, p.period, p.maxTick, p.most - taken + 1))
  }

  /** Where the loop stands. */
  ghost predicate Steady(p: Plan, v: Sight, taken: nat, cause: Cause, simTicks: nat) {
    && v.checkpoints == Schedule(p.when, p.period, taken)
    && v.tick <= p.maxTick && simTicks <= p.maxTick && (taken <= 1 || taken <= p.most)
    && (taken > 0 ==> At(p.when, p.period, taken - 1) <= p.maxTick)
    && (cause == LimitReached ==> taken >= 1 && v.tick == simTicks == At(p.when, p.period, taken - 1))
    && (Quiet(p.events) ==> Quiet(v.events) && cause == LimitReached)
    && Total(p.events, p.when, p.period, p.maxTick, p.most)
       == taken + if cause == LimitReached then Remaining(p, v.events, taken, simTicks) else 0
  }

  lemma Begins(p: Plan, v: Sight, taken: nat, cause: Cause)
    requires p.when <= p.maxTick && v.tick <= p.when && cause == CauseOf(PastGuests(p.events))
    requires v.events == Later(PastGuests(p.events)) && (cause == LimitReached ==> v.tick == p.when)
    requires taken == (if cause == LimitReached then 1 else 0)
    requires v.checkpoints == if cause == LimitReached then [v.tick] else []
    ensures Steady(p, v, taken, cause, p.when)
  {
    if Quiet(p.events) {
      QuietReaches(p.events);
    }
    assert cause == LimitReached ==> [v.tick] == [] + [At(p.when, p.period, 0)] == Schedule(p.when, p.period, 1);
  }

  /** One period keeps the loop on its plan. */
  lemma GoesOn(p: Plan, v: Sight, v': Sight, taken: nat, cause: Cause, simTicks: nat, reached: bool)
    requires Steady(p, v, taken, LimitReached, simTicks) && taken < p.most && simTicks + p.period <= p.maxTick
    requires cause == CauseOf(v.events) && (reached <==> Reaches(v.events))
    requires v'.tick <= v.tick + p.period && (reached ==> v'.tick == v.tick + p.period)
    requires cause == LimitReached ==> reached && v'.events == Later(v.events)
    requires v'.checkpoints == v.checkpoints + if reached then [v'.tick] else []
    ensures Steady(p, v', if reached then taken + 1 else taken, cause, simTicks + p.period)
  {
    if Quiet(p.events) {
      QuietReaches(v.events);
    }
    assert Fit(simTicks, p.period, p.maxTick, p.most - taken + 1)
        == 1 + Fit(simTicks + p.period, p.period, p.maxTick, p.most - taken);
  }

  /** What the caller gets. */
  ghost predicate Fulfilled(p: Plan, v: Sight, taken: nat, cause: Cause) {
    && v.checkpoints == Schedule(p.when, p.period, taken)
    && taken == Total(p.events, p.when, p.period, p.maxTick, p.most)
    && (taken > 0 ==> At(p.when, p.period, taken - 1) <= p.maxTick)
    && (taken <= 1 || taken <= p.most) && v.tick <= p.maxTick
    && (Quiet(p.events) ==>
          && cause == LimitReached && taken >= 1 && (taken >= p.most || At(p.when, p.period, taken) > p.maxTick)
          && v.tick == if taken < p.most then p.maxTick else At(p.when, p.period, taken - 1))
  }

  /** The loop has ended for lack of checkpoints to take, or because a period ended early. */
  lemma EndsInTime(p: Plan, v: Sight, taken: nat, cause: Cause, simTicks: nat)
    requires Steady(p, v, taken, cause, simTicks) && (taken >= p.most || cause != LimitReached)
    ensures Fulfilled(p, v, taken, cause)
  {
  }

  /** The next period would end too late: the rest is run through. */
  lemma EndsLate(p: Plan, v: Sight, v': Sight, taken: nat, cause: Cause, simTicks: nat)
    requires Steady(p, v, taken, LimitReached, simTicks) && simTicks + p.period > p.maxTick && taken < p.most
    requires v'.checkpoints == v.checkpoints && v'.tick <= p.maxTick
    requires cause == CauseOf(v.events) && (cause == LimitReached ==> v'.tick == p.maxTick)
    ensures Fulfilled(p, v', taken, cause)
  {
    if Quiet(p.events) {
      QuietReaches(v.events);
    }
  }

  /** Takes checkpoints at `when` and then at every `period`. The checkpoints are at exactly
      those ticks, none is missed between two, none is after `maxTick`, and there are at most
      `maxCheckpoints`, or one; what ends the periods says how many. If nothing ends early, they
      stop only for one of the limits, and the run ends there. */
  method ScriptCheckpoints(sim: Simulator, when: nat, period: nat, maxTick: nat, maxCheckpoints: int)
    returns (cause: Cause, taken: nat)
    requires sim.tick <= when <= maxTick && sim.checkpoints == []
    modifies sim`tick, sim`events, sim`checkpoints
    ensures Fulfilled(Plan(when, period, maxTick, maxCheckpoints, old(sim.events)), sim.Seen(), taken, cause)
  {
    ghost var plan := Plan(when, period, maxTick, maxCheckpoints, old(sim.events));
    cause := RunTo(sim, when);
    taken := 0;
    if cause == LimitReached {
      sim.Checkpoint();
      taken := 1;
    }
    var simTicks: nat := when;
    Begins(plan, sim.Seen(), taken, cause);
    while taken < maxCheckpoints && cause == LimitReached
      invariant Steady(plan, sim.Seen(), taken, cause, simTicks)
      decreases maxCheckpoints - taken, cause == LimitReached
    {
      ghost var before := sim.Seen();
      if simTicks + period > maxTick {
        cause := sim.Simulate(maxTick - simTicks);
        EndsLate(plan, before, sim.Seen(), taken, cause, simTicks);
        return;
      }
      var reached;
      cause, reached := RunPeriod(sim, period);
      simTicks := simTicks + period;
      if reached {
        sim.Checkpoint();
        taken := taken + 1;
      }
      GoesOn(plan, before, sim.Seen(), if reached then taken - 1 else taken, cause, simTicks - period, reached);
    }
    EndsInTime(plan, sim.Seen(), taken, cause, simTicks);
  }

  // ---------- Switching CPUs ----------

  /** The pairs of the `k`-th switch: the given ones and the opposite ones in turn. */
  function Turn(pairs: seq<Pair>, k: nat): seq<Pair> {
    if k % 2 == 0 then pairs else Flips(pairs)
  }

  /** The first CPUs are active, their partners are not, and `rest` takes no part. */
  predicate Ready(pairs: seq<Pair>, active: set<Cpu>, rest: set<Cpu>) {
    active == rest + Froms(pairs) && rest !! Froms(pairs) && Tos(pairs) !! active
  }

  lemma HandOver(pairs: seq<Pair>, active: set<Cpu>, rest: set<Cpu>)
    requires Ready(pairs, active, rest)
    ensures Froms(pairs) <= active && Ready(Flips(pairs), active - Froms(pairs) + Tos(pairs), rest)
  {
  }

  lemma NextTurn(pairs: seq<Pair>, k: nat)
    ensures Flips(Turn(pairs, k)) == Turn(pairs, k + 1)
  {
  }

  /** Switches every `freq` ticks until the end is near. No hand-over is refused: every one
      goes from the CPUs that are active to the ones that are not. Time never passes
      `maxTick`, and a run in which nothing ends early gets there. */
  method RepeatSwitch(sim: Simulator, pairs: seq<Pair>, maxTick: nat, freq: nat)
    returns (cause: Cause, switches: nat, refused: bool)
    requires freq > 0 && sim.tick + freq <= maxTick
    requires Froms(pairs) <= sim.active && Tos(pairs) !! sim.active
    modifies sim`tick, sim`events, sim`active
    ensures !refused && sim.tick <= maxTick
    ensures old(sim.tick) + switches * freq <= sim.tick
    ensures sim.active == old(sim.active) - Froms(pairs) + Froms(Turn(pairs, switches))
    ensures Quiet(old(sim.events)) ==>
      && cause == LimitReached && sim.tick == maxTick && switches >= 1
      && maxTick - (old(sim.tick) + switches * freq) <= freq
      && (switches > 1 ==> maxTick - (old(sim.tick) + (switches - 1) * freq) > freq)
  {
    var list := pairs;
    ghost var rest := sim.active - Froms(pairs);
    switches, refused := 0, false;
    while true
      invariant sim.tick + freq <= maxTick && sim.tick == old(sim.tick) + switches * freq
      invariant list == Turn(pairs, switches)
      invariant Ready(list, sim.active, rest)
      invariant switches >= 1 ==> maxTick - sim.tick > freq
      invariant Quiet(old(sim.events)) ==> Quiet(sim.events)
      decreases maxTick - sim.tick
    {
      cause := sim.Simulate(freq);
      if cause != LimitReached {
        return;
      }
      HandOver(list, sim.active, rest);
      NextTurn(pairs, switches);
      var ok := sim.SwitchCpus(list);
      if !ok {
        refused := true;
        return;
      }
      switches := switches + 1;
      list := Flips(list);
      if maxTick - sim.tick <= freq {
        cause := sim.Simulate(maxTick - sim.tick);
        return;
      }
    }
  }
}
