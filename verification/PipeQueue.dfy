/** The print queue of the O3 pipeline viewer: instructions arrive out of order, are
    sorted whenever the queue overflows, and leave it down to a lower threshold. */
module PipeQueue {
  import opened Sorting

  /** A traced instruction: its sequence number and the tick of every stage (0: never). */
  datatype Inst = Inst(sn: int, fetch: int, decode: int, rename: int, dispatch: int,
                       issue: int, complete: int, retire: int, store: int)

  /** The print boundaries; a bound that is not positive is off. */
  datatype Window = Window(snStart: int, snStop: int, tickStart: int, tickStop: int, onlyCommitted: bool)

  predicate Passes(w: Window, i: Inst) {
    && !(w.snStart > 0 && i.sn < w.snStart)
    && !(w.snStop > 0 && i.sn > w.snStop)
    && !(w.tickStart > 0 && i.fetch < w.tickStart)
    && !(w.tickStop > 0 && i.fetch > w.tickStop)
    && !(w.onlyCommitted && i.retire == 0)
  }

  function Filter(w: Window, s: seq<Inst>): (r: seq<Inst>) {
    if s == [] then []
    else Filter(w, s[..|s| - 1]) + (if Passes(w, s[|s| - 1]) then [s[|s| - 1]] else [])
  }

  lemma FilterConcat(w: Window, a: seq<Inst>, b: seq<Inst>)
    ensures Filter(w, a + b) == Filter(w, a) + Filter(w, b)
  {
    if b == [] {
      assert a + b == a;
    } else {
      FilterConcat(w, a, b[..|b| - 1]);
      assert (a + b)[..|a + b| - 1] == a + b[..|b| - 1];
    }
  }

  function Sn(i: Inst): int { i.sn }

  // ---------- The queue as a function of what was queued ----------

  /** The queue, and everything taken from it so far in the order it was taken. */
  datatype Contents = Contents(queue: seq<Inst>, taken: seq<Inst>)

  function Drain(c: Contents, lower: nat): Contents {
    var sorted := SortBy(Sn, c.queue);
    if |sorted| > lower
    then Contents(sorted[|sorted| - lower..], c.taken + sorted[..|sorted| - lower])
    else Contents(sorted, c.taken)
  }

  function Add(c: Contents, i: Inst, min: nat, max: nat): Contents {
    var c' := Contents(c.queue + [i], c.taken);
    if |c'.queue| > max then Drain(c', min) else c'
  }

  function AddAll(input: seq<Inst>, min: nat, max: nat): Contents {
    if input == [] then Contents([], [])
    else Add(AddAll(input[..|input| - 1], min, max), input[|input| - 1], min, max)
  }

  /** Everything taken from the queue in a run, the final flush included. */
  function TakenInRun(input: seq<Inst>, min: nat, max: nat): seq<Inst> {
    Drain(AddAll(input, min, max), 0).taken
  }

  /** The program's own queue. */
  class PrintQueue {
    const min: nat
    const max: nat
    const window: Window
    var queue: seq<Inst>
    var printed: seq<Inst>
    ghost var taken: seq<Inst>

    ghost function View(): Contents
      reads this
    {
      Contents(queue, taken)
    }

    ghost predicate Valid()
      reads this
    {
      printed == Filter(window, taken)
    }

    constructor (min: nat, max: nat, window: Window)
      ensures Valid() && View() == Contents([], [])
      ensures this.min == min && this.max == max && this.window == window
    {
      this.min, this.max, this.window := min, max, window;
      queue, printed, taken := [], [], [];
    }

    method QueueInst(i: Inst)
      requires Valid()
      modifies this
      ensures Valid() && View() == Add(old(View()), i, min, max)
    {
      queue := queue + [i];
      if |queue| > max {
        PrintInsts(min);
      }
    }

    method PrintInsts(lower: nat)
      requires Valid()
      modifies this
      ensures Valid() && View() == Drain(old(View()), lower)
    {
      queue := SortBy(Sn, queue);
      ghost var sorted := queue;
      ghost var before := taken;
      while |queue| > lower
        invariant Valid()
        invariant |queue| <= |sorted|
        invariant |sorted| > lower ==> |queue| >= lower
        invariant |sorted| <= lower ==> queue == sorted
        invariant queue == sorted[|sorted| - |queue|..]
        invariant taken == before + sorted[..|sorted| - |queue|]
      {
        var item := queue[0];
        ghost var k := |sorted| - |queue|;
        assert sorted[..k + 1] == sorted[..k] + [item];
        queue := queue[1..];
        FilterConcat(window, taken, [item]);
        taken := taken + [item];
        assert before + sorted[..k + 1] == before + sorted[..k] + [item];
        if window.snStart > 0 && item.sn < window.snStart { continue; }
        if window.snStop > 0 && item.sn > window.snStop { continue; }
        if window.tickStart > 0 && item.fetch < window.tickStart { continue; }
        if window.tickStop > 0 && item.fetch > window.tickStop { continue; }
        if window.onlyCommitted && item.retire == 0 { continue; }
        printed := printed + [item];
      }
    }
  }

  /** The instruction lies within every bound that is on. */
  predicate Within(w: Window, i: Inst) {
    && (w.snStart <= 0 || w.snStart <= i.sn) && (w.snStop <= 0 || i.sn <= w.snStop)
    && (w.tickStart <= 0 || w.tickStart <= i.fetch) && (w.tickStop <= 0 || i.fetch <= w.tickStop)
    && (w.onlyCommitted ==> i.retire != 0)
  }

  lemma {:induction false} FilterCounts(w: Window, s: seq<Inst>, x: Inst)
    ensures multiset(Filter(w, s))[x] == if Within(w, x) then multiset(s)[x] else 0
  {
    if s != [] {
      var front, last := s[..|s| - 1], s[|s| - 1];
      FilterCounts(w, front, x);
      assert s == front + [last];
    }
  }

  /** A whole run: every instruction is queued and the rest is flushed at the end. Each is printed
      as often as it was queued if it lies within the bounds, and otherwise not at all. */
  method PrintTrace(input: seq<Inst>, min: nat, max: nat, window: Window) returns (printed: seq<Inst>)
    ensures printed == Filter(window, TakenInRun(input, min, max))
    ensures forall x :: multiset(printed)[x] == if Within(window, x) then multiset(input)[x] else 0
  {
    var q := new PrintQueue(min, max, window);
    for n := 0 to |input|
      invariant fresh(q) && q.min == min && q.max == max && q.window == window
      invariant q.Valid() && q.View() == AddAll(input[..n], min, max)
    {
      q.QueueInst(input[n]);
      assert input[..n + 1][..n] == input[..n];
    }
    assert input[..|input|] == input;
    q.PrintInsts(0);
    printed := q.printed;
    EachTakenOnce(input, min, max);
    forall x ensures multiset(printed)[x] == if Within(window, x) then multiset(input)[x] else 0 {
      FilterCounts(window, TakenInRun(input, min, max), x);
    }
  }

  // ---------- Nothing is lost or printed twice, whatever the order ----------

  lemma DrainElements(c: Contents, lower: nat)
    ensures var d := Drain(c, lower);
            multiset(d.queue) + multiset(d.taken) == multiset(c.queue) + multiset(c.taken)
  {
    var sorted := SortBy(Sn, c.queue);
    SortElements(Sn, c.queue);
    if |sorted| > lower {
      assert sorted == sorted[..|sorted| - lower] + sorted[|sorted| - lower..];
    }
  }

  lemma AddAllElements(input: seq<Inst>, min: nat, max: nat)
    ensures var c := AddAll(input, min, max);
            multiset(c.queue) + multiset(c.taken) == multiset(input)
  {
    if input != [] {
      var init, last := input[..|input| - 1], input[|input| - 1];
      AddAllElements(init, min, max);
      var c := AddAll(init, min, max);
      DrainElements(Contents(c.queue + [last], c.taken), min);
      assert input == init + [last];
    }
  }

  /** Every queued instruction is taken from the queue exactly once. */
  lemma EachTakenOnce(input: seq<Inst>, min: nat, max: nat)
    ensures multiset(TakenInRun(input, min, max)) == multiset(input)
  {
    AddAllElements(input, min, max);
    DrainElements(AddAll(input, min, max), 0);
  }

  // ---------- Bounded disorder gives a sorted trace ----------

  function CountAbove(s: seq<Inst>, v: int): nat {
    if s == [] then 0
    else CountAbove(s[..|s| - 1], v) + (if s[|s| - 1].sn > v then 1 else 0)
  }

  /** No instruction comes after more than `m` instructions with larger numbers. */
  predicate DisorderAtMost(input: seq<Inst>, m: nat) {
    forall j | 0 <= j < |input| :: CountAbove(input[..j], input[j].sn) <= m
  }

  lemma CountConcat(a: seq<Inst>, b: seq<Inst>, v: int)
    ensures CountAbove(a + b, v) == CountAbove(a, v) + CountAbove(b, v)
  {
    if b == [] {
      assert a + b == a;
    } else {
      CountConcat(a, b[..|b| - 1], v);
      assert (a + b)[..|a + b| - 1] == a + b[..|b| - 1];
    }
  }

  lemma CountInsert(s: seq<Inst>, x: Inst, v: int)
    ensures CountAbove(InsertBy(Sn, s, x), v) == CountAbove(s, v) + (if x.sn > v then 1 else 0)
  {
  }

  lemma CountSorted(s: seq<Inst>, v: int)
    ensures CountAbove(SortBy(Sn, s), v) == CountAbove(s, v)
  {
    if s != [] {
      CountSorted(s[..|s| - 1], v);
      CountInsert(SortBy(Sn, s[..|s| - 1]), s[|s| - 1], v);
    }
  }

  lemma CountAll(s: seq<Inst>, v: int)
    requires forall i | 0 <= i < |s| :: s[i].sn > v
    ensures CountAbove(s, v) == |s|
  {
  }

  lemma CountOne(s: seq<Inst>, i: nat, v: int)
    requires i < |s| && s[i].sn > v
    ensures CountAbove(s, v) >= 1
  {
  }

  /** The taken instructions followed by the sorted queue are the sorted input so far. */
  predicate InStep(c: Contents, prefix: seq<Inst>, min: nat) {
    && c.taken + SortBy(Sn, c.queue) == SortBy(Sn, prefix)
    && (c.taken != [] ==> |c.queue| >= min)
  }

  lemma SuffixSorted(sorted: seq<Inst>, k: nat)
    requires Ordered(Sn, sorted) && k <= |sorted|
    ensures SortBy(Sn, sorted[k..]) == sorted[k..]
  {
    SortIdempotent(Sn, sorted[k..]);
  }

  lemma Regroup(taken: seq<Inst>, sorted: seq<Inst>, k: nat)
    requires k <= |sorted|
    ensures taken + sorted[..k] + sorted[k..] == taken + sorted
  {
  }

  lemma DrainInStep(c: Contents, prefix: seq<Inst>, lower: nat)
    requires c.taken + SortBy(Sn, c.queue) == SortBy(Sn, prefix) && |c.queue| >= lower
    ensures Drain(c, lower).taken + SortBy(Sn, Drain(c, lower).queue) == SortBy(Sn, prefix)
    ensures |Drain(c, lower).queue| == lower
  {
    var sorted := SortBy(Sn, c.queue);
    SortOrdered(Sn, c.queue);
    var k := |sorted| - lower;
    SuffixSorted(sorted, k);
    Regroup(c.taken, sorted, k);
    if k == 0 {
      Regroup(c.taken, sorted, 0);
      assert sorted[0..] == sorted && c.taken + sorted[..0] == c.taken;
    }
  }

  lemma AboveFrom(taken: seq<Inst>, sorted: seq<Inst>, v: int, i: nat)
    requires Ordered(Sn, taken + sorted) && i < |taken| && taken[i].sn > v
    ensures CountAbove(taken + sorted, v) >= |sorted| + 1
  {
    var all := taken + sorted;
    forall j | 0 <= j < |sorted| ensures sorted[j].sn > v {
      assert Sn(all[i]) <= Sn(all[|taken| + j]);
    }
    CountAll(sorted, v);
    CountOne(taken, i, v);
    CountConcat(taken, sorted, v);
  }

  /** What has been taken stays below every later arrival of bounded disorder. */
  lemma TakenBelow(c: Contents, prefix: seq<Inst>, x: Inst, min: nat)
    requires InStep(c, prefix, min) && CountAbove(prefix, x.sn) <= min
    ensures AllAtMost(Sn, c.taken, x.sn)
  {
    SortOrdered(Sn, prefix);
    CountSorted(prefix, x.sn);
    forall i | 0 <= i < |c.taken| ensures Sn(c.taken[i]) <= x.sn {
      if c.taken[i].sn > x.sn {
        AboveFrom(c.taken, SortBy(Sn, c.queue), x.sn, i);
      }
    }
  }

  lemma AddInStep(c: Contents, prefix: seq<Inst>, x: Inst, min: nat, max: nat)
    requires min <= max && InStep(c, prefix, min) && CountAbove(prefix, x.sn) <= min
    ensures InStep(Add(c, x, min, max), prefix + [x], min)
  {
    TakenBelow(c, prefix, x, min);
    InsertBehind(Sn, c.taken, SortBy(Sn, c.queue), x);
    assert (prefix + [x])[..|prefix|] == prefix;
    var c' := Contents(c.queue + [x], c.taken);
    assert c'.queue[..|c.queue|] == c.queue;
    assert c'.taken + SortBy(Sn, c'.queue) == SortBy(Sn, prefix + [x]);
    if |c'.queue| > max {
      DrainInStep(c', prefix + [x], min);
    }
  }

  lemma DisorderPrefix(init: seq<Inst>, last: Inst, m: nat)
    requires DisorderAtMost(init + [last], m)
    ensures DisorderAtMost(init, m) && CountAbove(init, last.sn) <= m
  {
    var input := init + [last];
    forall j | 0 <= j < |init| ensures CountAbove(init[..j], init[j].sn) <= m {
      assert init[..j] == input[..j] && init[j] == input[j];
    }
    assert input[..|init|] == init;
  }

  lemma {:induction false} AllInStep(input: seq<Inst>, min: nat, max: nat)
    requires min <= max && DisorderAtMost(input, min)
    ensures InStep(AddAll(input, min, max), input, min)
  {
    if input != [] {
      var init, last := input[..|input| - 1], input[|input| - 1];
      assert input == init + [last];
      DisorderPrefix(init, last, min);
      AllInStep(init, min, max);
      AddInStep(AddAll(init, min, max), init, last, min, max);
    }
  }

  /** If the trace is out of order by at most the lower threshold, the run takes the
      instructions in the order of the stable sort of the whole trace. */
  lemma BoundedDisorderIsSorted(input: seq<Inst>, min: nat, max: nat)
    requires min <= max && DisorderAtMost(input, min)
    ensures TakenInRun(input, min, max) == SortBy(Sn, input)
  {
    AllInStep(input, min, max);
    DrainInStep(AddAll(input, min, max), input, 0);
  }

  // ---------- The lower threshold is the exact bound ----------

  function At(sn: int): Inst {
    Inst(sn, 1, 1, 1, 1, 1, 1, 1, 0)
  }

  function Evens(n: nat): (r: seq<Inst>)
    ensures |r| == n && forall i | 0 <= i < n :: r[i].sn == 2 * (i + 1)
  {
    if n == 0 then [] else Evens(n - 1) + [At(2 * n)]
  }

  /** Enough ordered instructions to overflow the queue, then one that belongs just
      before the last instruction printed. */
  function LateTrace(min: nat, max: nat): seq<Inst>
    requires min <= max
  {
    Evens(max + 1) + [At(2 * (max + 1 - min) - 1)]
  }

  lemma EvensFill(n: nat, min: nat, max: nat)
    requires n <= max
    ensures AddAll(Evens(n), min, max) == Contents(Evens(n), [])
  {
  }

  lemma DrainOrdered(s: seq<Inst>, lower: nat)
    requires Ordered(Sn, s) && |s| > lower
    ensures Drain(Contents(s, []), lower) == Contents(s[|s| - lower..], s[..|s| - lower])
  {
    SortIdempotent(Sn, s);
  }

  lemma EvensOverflow(min: nat, max: nat)
    requires min <= max
    ensures var k := max + 1 - min;
            AddAll(Evens(max + 1), min, max) == Contents(Evens(max + 1)[k..], Evens(max + 1)[..k])
  {
    var all := Evens(max + 1);
    EvensFill(max, min, max);
    assert all[..max] == Evens(max) && all == Evens(max) + [all[max]];
    DrainOrdered(all, min);
  }

  lemma TakenGrows(c: Contents, x: Inst, min: nat, max: nat)
    ensures c.taken <= Add(c, x, min, max).taken <= Drain(Add(c, x, min, max), 0).taken
  {
  }

  lemma CountNone(s: seq<Inst>, v: int)
    requires forall i | 0 <= i < |s| :: s[i].sn <= v
    ensures CountAbove(s, v) == 0
  {
  }

  lemma LateTraceDisorder(min: nat, max: nat)
    requires min <= max
    ensures DisorderAtMost(LateTrace(min, max), min + 1)
  {
    var input, evens, k := LateTrace(min, max), Evens(max + 1), max + 1 - min;
    forall j | 0 <= j < |input| ensures CountAbove(input[..j], input[j].sn) <= min + 1 {
      if j <= max {
        assert input[..j] == evens[..j];
        CountNone(evens[..j], input[j].sn);
      } else {
        var v := 2 * k - 1;
        assert input[..j] == evens && evens == evens[..k - 1] + evens[k - 1..];
        CountConcat(evens[..k - 1], evens[k - 1..], v);
        CountNone(evens[..k - 1], v);
        CountAll(evens[k - 1..], v);
      }
    }
  }

  lemma Misplaced(taken: seq<Inst>, k: nat, x: Inst)
    requires 0 < k <= |taken| && x in taken && x.sn < taken[k - 1].sn
    requires forall i | 0 <= i < k :: taken[i] != x
    ensures !Ordered(Sn, taken)
  {
  }

  lemma LateTracePrefix(min: nat, max: nat)
    requires min <= max
    ensures Evens(max + 1)[..max + 1 - min] <= TakenInRun(LateTrace(min, max), min, max)
  {
    var input, evens := LateTrace(min, max), Evens(max + 1);
    EvensOverflow(min, max);
    assert input[..|input| - 1] == evens;
    TakenGrows(AddAll(evens, min, max), input[|input| - 1], min, max);
  }

  lemma TakenMembers(input: seq<Inst>, min: nat, max: nat, x: Inst)
    requires x in input
    ensures x in TakenInRun(input, min, max)
  {
    EachTakenOnce(input, min, max);
    assert x in multiset(input);
  }

  lemma LateTraceMisplaced(min: nat, max: nat, input: seq<Inst>, taken: seq<Inst>)
    requires min <= max && input == LateTrace(min, max) && taken == TakenInRun(input, min, max)
    ensures !Ordered(Sn, taken)
  {
    var k := max + 1 - min;
    var x := At(2 * k - 1);
    assert x in input && x in taken by {
      assert input[max + 1] == x;
      TakenMembers(input, min, max, x);
    }
    LateTracePrefix(min, max);
    assert forall i | 0 <= i < k :: taken[i] == Evens(max + 1)[i];
    Misplaced(taken, k, x);
  }

  lemma LateTraceUnsorted(min: nat, max: nat)
    requires min <= max
    ensures TakenInRun(LateTrace(min, max), min, max) != SortBy(Sn, LateTrace(min, max))
  {
    var input := LateTrace(min, max);
    LateTraceMisplaced(min, max, input, TakenInRun(input, min, max));
    SortOrdered(Sn, input);
  }

  /** Main result: with thresholds min <= max, every trace of disorder at most m is
      printed in sorted order exactly if m <= min. */
  lemma LowerThresholdIsExact(min: nat, max: nat, m: nat)
    requires min <= max
    ensures m <= min <==>
            forall input | DisorderAtMost(input, m) :: TakenInRun(input, min, max) == SortBy(Sn, input)
  {
    if m <= min {
      forall input | DisorderAtMost(input, m) ensures TakenInRun(input, min, max) == SortBy(Sn, input) {
        BoundedDisorderIsSorted(input, min, max);
      }
    } else {
      LateTraceDisorder(min, max);
      LateTraceUnsorted(min, max);
      assert DisorderAtMost(LateTrace(min, max), m);
    }
  }
}
