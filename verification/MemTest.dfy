/** The tree of caches and memory testers: its size in closed form, the prototypes of its
    caches, and the recursive construction. */
module MemTest {

  const BLOCK_SIZE := 64

  // ---------- The number of testers ----------

  function Product(s: seq<int>): int {
    if s == [] then 1 else Product(s[..|s| - 1]) * s[|s| - 1]
  }

  /** Every tester entry counts once for each subsystem on its level. */
  function Weighted(caches: seq<int>, testers: seq<int>, n: nat): int
    requires n <= |testers| && n <= |caches| + 1
  {
    if n == 0 then 0 else Weighted(caches, testers, n - 1) + testers[n - 1] * Product(caches[..n - 1])
  }

  function Common(caches: seq<int>, testers: seq<int>): (n: nat)
    ensures n <= |testers| && n <= |caches| + 1
  {
    if |testers| < |caches| + 1 then |testers| else |caches| + 1
  }

  method NumTesters(caches: seq<int>, testers: seq<int>) returns (total: int)
    ensures total == Weighted(caches, testers, Common(caches, testers))
  {
    var multiplier := [1];
    for k := 0 to |caches|
      invariant |multiplier| == k + 1
      invariant forall j | 0 <= j <= k :: multiplier[j] == Product(caches[..j])
    {
      assert caches[..k + 1][..k] == caches[..k];
      multiplier := multiplier + [multiplier[|multiplier| - 1] * caches[k]];
    }
    total := 0;
    for k := 0 to Common(caches, testers)
      invariant total == Weighted(caches, testers, k)
    {
      total := total + testers[k] * multiplier[k];
    }
  }

  /** One more tester entry than cache entries, with testers at the end and a cache each. */
  predicate Shaped(caches: seq<int>, testers: seq<int>) {
    && |caches| >= 1 && |caches| == |testers| - 1
    && testers[|testers| - 1] != 0
    && (forall k | 0 <= k < |testers| :: testers[k] >= 0)
    && (forall k | 0 <= k < |caches| :: caches[k] >= 1)
  }

  /** The specifications that are accepted. */
  predicate Accepted(caches: seq<int>, testers: seq<int>) {
    Shaped(caches, testers) && Weighted(caches, testers, |testers|) <= BLOCK_SIZE
  }

  // ---------- Prototypes ----------

  datatype Clusivity = MostlyIncl | MostlyExcl {
    function Other(): Clusivity {
      if MostlyIncl? then MostlyExcl else MostlyIncl
    }
  }

  datatype Proto = Proto(size: int, assoc: int, tagLatency: int, dataLatency: int, responseLatency: int,
                         mshrs: int, clusivity: Clusivity, writebackClean: bool)

  function Scaled(prev: Proto, scale: int): Proto {
    Proto(prev.size * scale, prev.assoc * scale, prev.tagLatency * 10, prev.dataLatency * 10,
          prev.responseLatency * 10, prev.mshrs * scale, prev.clusivity.Other(), !prev.writebackClean)
  }

  /** The prototypes, the one nearest memory first and the given one last. */
  method MakeProtos(l1: Proto, caches: seq<int>) returns (protos: seq<Proto>)
    requires |caches| >= 1
    ensures |protos| == |caches| && protos[|protos| - 1] == l1
    ensures forall j | 0 <= j < |protos| - 1 :: protos[j] == Scaled(protos[j + 1], caches[|caches| - 2 - j])
  {
    protos := [l1];
    for k := 0 to |caches| - 1
      invariant |protos| == k + 1 && protos[k] == l1
      invariant forall j | 0 <= j < k :: protos[j] == Scaled(protos[j + 1], caches[k - 1 - j])
    {
      protos := [Scaled(protos[0], caches[k])] + protos;
    }
  }

  function Power10(n: nat): int {
    if n == 0 then 1 else 10 * Power10(n - 1)
  }

  predicate IsScale(l1: Proto, caches: seq<int>, protos: seq<Proto>) {
    && |protos| == |caches| >= 1 && protos[|protos| - 1] == l1
    && forall j | 0 <= j < |protos| - 1 :: protos[j] == Scaled(protos[j + 1], caches[|caches| - 2 - j])
  }

  /** The prototype `up` steps above the given one: its size is multiplied by the first `up`
      fan-outs, its latency by a power of ten, and the kind of inclusion alternates. */
  lemma {:induction false} ProtoAt(l1: Proto, caches: seq<int>, protos: seq<Proto>, up: nat)
    requires IsScale(l1, caches, protos) && up < |protos|
    ensures var p := protos[|protos| - 1 - up];
      && p.size == l1.size * Product(caches[..up])
      && p.assoc == l1.assoc * Product(caches[..up])
      && p.mshrs == l1.mshrs * Product(caches[..up])
      && p.tagLatency == l1.tagLatency * Power10(up)
      && p.clusivity == (if up % 2 == 0 then l1.clusivity else l1.clusivity.Other())
      && p.writebackClean == (if up % 2 == 0 then l1.writebackClean else !l1.writebackClean)
  {
    if up > 0 {
      ProtoAt(l1, caches, protos, up - 1);
      var scale := caches[up - 1];
      assert caches[..up][..up - 1] == caches[..up - 1];
      assert protos[|protos| - 1 - up] == Scaled(protos[|protos| - up], scale);
      Assoc(l1.size, Product(caches[..up - 1]), scale);
      Assoc(l1.assoc, Product(caches[..up - 1]), scale);
      Assoc(l1.mshrs, Product(caches[..up - 1]), scale);
      Assoc(l1.tagLatency, Power10(up - 1), 10);
    }
  }

  /** The same for the other latencies. */
  lemma {:induction false} LatencyAt(l1: Proto, caches: seq<int>, protos: seq<Proto>, up: nat)
    requires IsScale(l1, caches, protos) && up < |protos|
    ensures var p := protos[|protos| - 1 - up];
      p.dataLatency == l1.dataLatency * Power10(up) && p.responseLatency == l1.responseLatency * Power10(up)
  {
    if up > 0 {
      LatencyAt(l1, caches, protos, up - 1);
      assert protos[|protos| - 1 - up] == Scaled(protos[|protos| - up], caches[up - 1]);
      Assoc(l1.dataLatency, Power10(up - 1), 10);
      Assoc(l1.responseLatency, Power10(up - 1), 10);
    }
  }

  lemma Assoc(a: int, b: int, c: int)
    ensures a * b * c == a * (b * c)
  {
  }

  // ---------- Construction ----------

  datatype Subsystem = Subsystem(level: nat, index: nat, testers: int, treeCaches: seq<Proto>)

  /** The subsystems on `level` below one on level `top`, where level `n` is next to memory. */
  function Below(caches: seq<int>, top: nat, level: nat): int
    requires top <= |caches|
  {
    if level > top then 0
    else if level == top then 1
    else caches[|caches| - top] * Below(caches, top - 1, level)
  }

  function TestersBelow(caches: seq<int>, testers: seq<int>, top: nat): int
    requires top <= |caches| == |testers| - 1
  {
    testers[|caches| - top]
    + if top == 0 then 0 else caches[|caches| - top] * TestersBelow(caches, testers, top - 1)
  }

  /** The indices used on a level, in the order of creation. */
  function IndicesAt(made: seq<Subsystem>, level: nat): seq<nat> {
    if made == [] then []
    else
      var last := made[|made| - 1];
      IndicesAt(made[..|made| - 1], level) + if last.level == level then [last.index] else []
  }

  function Upto(n: int): (r: seq<nat>)
    ensures n >= 0 ==> |r| == n
    ensures forall k | 0 <= k < |r| :: r[k] == k
  {
    if n < 0 then [] else seq(n, k => k)
  }

  /** On every level below `levels` the subsystems are numbered from 0 on. */
  predicate Numbered(made: seq<Subsystem>, next: seq<int>, levels: nat)
    requires levels <= |next|
  {
    levels == 0 || (Numbered(made, next, levels - 1) && NumberedAt(made, next, levels - 1))
  }

  predicate NumberedAt(made: seq<Subsystem>, next: seq<int>, level: nat)
    requires level < |next|
  {
    next[level] >= 0 && IndicesAt(made, level) == Upto(next[level])
  }

  lemma {:induction false} NumberedEach(made: seq<Subsystem>, next: seq<int>, levels: nat, level: nat)
    requires level < levels <= |next| && Numbered(made, next, levels)
    ensures NumberedAt(made, next, level)
  {
    if level < levels - 1 {
      NumberedEach(made, next, levels - 1, level);
    }
  }

  lemma NextIndex(made: seq<Subsystem>, next: seq<int>, level: nat)
    requires level < |next| && Numbered(made, next, |next|)
    ensures next[level] >= 0
  {
    NumberedEach(made, next, |next|, level);
  }

  lemma IndicesMore(made: seq<Subsystem>, next: seq<int>, sub: Subsystem, level: nat)
    requires level < |next| && NumberedAt(made, next, level)
    requires sub.level < |next| && sub.index == next[sub.level]
    ensures NumberedAt(made + [sub], next[sub.level := sub.index + 1], level)
  {
    assert (made + [sub])[..|made|] == made;
    assert Upto(sub.index + 1) == Upto(sub.index) + [sub.index];
  }

  lemma {:induction false} NumberedMore(made: seq<Subsystem>, next: seq<int>, sub: Subsystem, levels: nat)
    requires levels <= |next| && Numbered(made, next, levels)
    requires sub.level < |next| && sub.index == next[sub.level]
    ensures Numbered(made + [sub], next[sub.level := sub.index + 1], levels)
  {
    if levels > 0 {
      NumberedMore(made, next, sub, levels - 1);
      IndicesMore(made, next, sub, levels - 1);
    }
  }

  lemma {:induction false} NumberedFirst(next: seq<int>, levels: nat)
    requires levels <= |next| && forall l | 0 <= l < |next| :: next[l] == 0
    ensures Numbered([], next, levels)
  {
    if levels > 0 {
      NumberedFirst(next, levels - 1);
    }
  }

  /** Every subsystem has what its level prescribes. */
  predicate AllFit(made: seq<Subsystem>, caches: seq<int>, testers: seq<int>, protos: seq<Proto>)
    requires Shaped(caches, testers) && |protos| == |caches|
  {
    made == [] ||
    (AllFit(made[..|made| - 1], caches, testers, protos) && Fits(made[|made| - 1], caches, testers, protos))
  }

  /** The caches of a subsystem: none on the last level. */
  function Trees(caches: seq<int>, protos: seq<Proto>, level: nat): (r: seq<Proto>)
    requires level <= |caches| == |protos| && forall k | 0 <= k < |caches| :: caches[k] >= 1
    ensures |r| == if level == 0 then 0 else caches[|caches| - level]
    ensures forall k | 0 <= k < |r| :: level > 0 && r[k] == protos[|caches| - level]
  {
    if level == 0 then [] else seq(caches[|caches| - level], k => protos[|caches| - level])
  }

  lemma FitsMore(made: seq<Subsystem>, sub: Subsystem, caches: seq<int>, testers: seq<int>, protos: seq<Proto>)
    requires Shaped(caches, testers) && |protos| == |caches| && AllFit(made, caches, testers, protos)
    requires sub.level <= |caches| && sub.testers == testers[|caches| - sub.level]
    requires sub.treeCaches == Trees(caches, protos, sub.level)
    ensures AllFit(made + [sub], caches, testers, protos)
  {
    assert (made + [sub])[..|made|] == made;
  }

  lemma {:induction false} FitsEach(made: seq<Subsystem>, caches: seq<int>, testers: seq<int>, protos: seq<Proto>, k: nat)
    requires Shaped(caches, testers) && |protos| == |caches| && AllFit(made, caches, testers, protos) && k < |made|
    ensures Fits(made[k], caches, testers, protos)
  {
    if k < |made| - 1 {
      FitsEach(made[..|made| - 1], caches, testers, protos, k);
    }
  }

  class Builder {
    const caches: seq<int>
    const testers: seq<int>
    const protos: seq<Proto>
    var next: seq<int>
    var made: seq<Subsystem>
    var created: int

    constructor (caches: seq<int>, testers: seq<int>, protos: seq<Proto>)
      requires Shaped(caches, testers) && |protos| == |caches|
      ensures this.caches == caches && this.testers == testers && this.protos == protos
      ensures Valid() && made == [] && created == 0 && forall l | 0 <= l <= |caches| :: next[l] == 0
    {
      this.caches, this.testers, this.protos := caches, testers, protos;
      next, made, created := seq(|caches| + 1, k => 0), [], 0;
      new;
      NumberedFirst(next, |next|);
    }

    /** On every level the subsystems are numbered from 0 on, and each has the testers and
        the caches of its level. */
    ghost predicate Valid()
      reads this
    {
      && Shaped(caches, testers) && |protos| == |caches| && |next| == |caches| + 1
      && Numbered(made, next, |next|) && AllFit(made, caches, testers, protos)
    }

    /** Starts a subsystem. */
    method Enter(level: nat) returns (sub: Subsystem)
      requires Valid() && level <= |caches|
      modifies this
      ensures Valid() && made == old(made) + [sub] && sub.level == level && sub.index == old(next)[level]
      ensures next == old(next)[level := old(next)[level] + 1]
      ensures created == old(created) + testers[|caches| - level]
    {
      var count := testers[|caches| - level];
      var trees := Trees(caches, protos, level);
      NextIndex(made, next, level);
      sub := Subsystem(level, next[level], count, trees);
      NumberedMore(made, next, sub, |next|);
      FitsMore(made, sub, caches, testers, protos);
      next := next[level := next[level] + 1];
      made := made + [sub];
      created := created + count;
    }

    /** Builds the tree below one subsystem. Not `ok` is the exit without a cache to attach to. */
    method MakeCacheLevel(ncaches: seq<int>, prototypes: seq<Proto>, level: nat, hasNext: bool) returns (ok: bool)
      requires Valid() && level <= |caches|
      requires ncaches == caches[|caches| - level..] && prototypes == protos[|caches| - level..]
      modifies this
      decreases level, 1
      ensures Valid() && (ok <==> level > 0 || hasNext)
      ensures Grown(caches, testers, level, 1, old(next), old(created), next, created)
    {
      var sub := Enter(level);
      if level == 0 {
        GrownLeaf(caches, testers, old(next), old(created));
        return hasNext;
      }
      ghost var start, base := next, created;
      MakeChildren(ncaches, prototypes, level);
      GrownEnd(caches, testers, level, old(next), old(created), start, base, next, created);
      ok := true;
    }

    /** Builds one tree behind every cache that fans out. */
    method MakeChildren(ncaches: seq<int>, prototypes: seq<Proto>, level: nat)
      requires Valid() && 0 < level <= |caches|
      requires ncaches == caches[|caches| - level..] && prototypes == protos[|caches| - level..]
      modifies this
      decreases level, 0
      ensures Valid() && Grown(caches, testers, level - 1, ncaches[0], old(next), old(created), next, created)
    {
      GrownStart(caches, testers, level - 1, next, created);
      Fanout(caches, testers, |caches| - level);
      var k := 0;
      while k < ncaches[0]
        invariant k <= ncaches[0] && Valid()
        invariant Grown(caches, testers, level - 1, k, old(next), old(created), next, created)
      {
        ghost var before, count := next, created;
        var below := MakeCacheLevel(ncaches[1..], prototypes[1..], level - 1, true);
        GrownStep(caches, testers, level - 1, k, old(next), old(created), before, count, next, created);
        k := k + 1;
      }
    }
  }

  lemma Fanout(caches: seq<int>, testers: seq<int>, k: nat)
    requires Shaped(caches, testers) && k < |caches|
    ensures caches[k] >= 0
  {
  }

  lemma GrownLeaf(caches: seq<int>, testers: seq<int>, next: seq<int>, made: int)
    requires |caches| == |testers| - 1 && |next| == |caches| + 1
    ensures Grown(caches, testers, 0, 1, next, made, next[0 := next[0] + 1], made + testers[|caches|])
  {
  }

  /** Building `k` trees below level `top` takes the counters from `next0` to `next1` and the
      number of testers from `made0` to `made1`. */
  ghost predicate Grown(caches: seq<int>, testers: seq<int>, top: nat, k: int,
                        next0: seq<int>, made0: int, next1: seq<int>, made1: int)
    requires top <= |caches| == |testers| - 1
  {
    && |next0| == |next1| == |caches| + 1
    && (forall l | 0 <= l < |next0| :: next1[l] == next0[l] + k * Below(caches, top, l))
    && made1 == made0 + k * TestersBelow(caches, testers, top)
  }

  lemma GrownStart(caches: seq<int>, testers: seq<int>, top: nat, next: seq<int>, made: int)
    requires top <= |caches| == |testers| - 1 && |next| == |caches| + 1
    ensures Grown(caches, testers, top, 0, next, made, next, made)
  {
  }

  lemma GrownStep(caches: seq<int>, testers: seq<int>, top: nat, k: int, next0: seq<int>, made0: int,
                  next1: seq<int>, made1: int, next2: seq<int>, made2: int)
    requires top <= |caches| == |testers| - 1
    requires Grown(caches, testers, top, k, next0, made0, next1, made1)
    requires Grown(caches, testers, top, 1, next1, made1, next2, made2)
    ensures Grown(caches, testers, top, k + 1, next0, made0, next2, made2)
  {
  }

  /** One subsystem and all its children make the tree. */
  lemma GrownEnd(caches: seq<int>, testers: seq<int>, top: nat, next0: seq<int>, made0: int,
                 next1: seq<int>, made1: int, next2: seq<int>, made2: int)
    requires 0 < top <= |caches| == |testers| - 1 && |next0| == |caches| + 1
    requires next1 == next0[top := next0[top] + 1] && made1 == made0 + testers[|caches| - top]
    requires Grown(caches, testers, top - 1, caches[|caches| - top], next1, made1, next2, made2)
    ensures Grown(caches, testers, top, 1, next0, made0, next2, made2)
  {
  }

  /** The subsystem has what its level prescribes. */
  predicate Fits(s: Subsystem, caches: seq<int>, testers: seq<int>, protos: seq<Proto>)
    requires Shaped(caches, testers) && |protos| == |caches|
  {
    && s.level <= |caches| && s.testers == testers[|caches| - s.level]
    && if s.level == 0 then s.treeCaches == [] && s.testers >= 1
       else |s.treeCaches| == caches[|caches| - s.level]
            && forall k | 0 <= k < |s.treeCaches| :: s.treeCaches[k] == protos[|caches| - s.level]
  }

  // ---------- The recursion against the closed form ----------

  /** The number of subsystems on a level is the product of the fan-outs nearer memory. */
  lemma {:induction false} BelowIsProduct(caches: seq<int>, top: nat, level: nat)
    requires level <= top <= |caches|
    ensures Below(caches, top, level) == Product(caches[|caches| - top..|caches| - level])
  {
    var n := |caches|;
    if level < top {
      BelowIsProduct(caches, top - 1, level);
      ProductFirst(caches[n - top..n - level]);
      assert caches[n - top..n - level][1..] == caches[n - (top - 1)..n - level];
    }
  }

  lemma {:induction false} ProductFirst(s: seq<int>)
    requires s != []
    ensures Product(s) == s[0] * Product(s[1..])
  {
    if |s| == 1 {
      assert s[..0] == s[1..] == [];
    } else {
      var front := s[..|s| - 1];
      ProductFirst(front);
      assert s[1..][..|s| - 2] == front[1..];
      Assoc(s[0], Product(front[1..]), s[|s| - 1]);
    }
  }

  /** Testers on the levels from `n - k` on, below one subsystem there. */
  lemma {:induction false} WeightedSplit(caches: seq<int>, testers: seq<int>, k: nat)
    requires k <= |caches| == |testers| - 1
    ensures Weighted(caches, testers, |testers|) ==
            Weighted(caches, testers, k) + Product(caches[..k]) * TestersBelow(caches, testers, |caches| - k)
    decreases |caches| - k
  {
    if k < |caches| {
      WeightedSplit(caches, testers, k + 1);
      var p, t, c, rest := Product(caches[..k]), testers[k], caches[k], TestersBelow(caches, testers, |caches| - k - 1);
      assert caches[..k + 1][..k] == caches[..k];
      Assoc(p, c, rest);
      Distribute(p, t, c * rest);
    } else {
      assert TestersBelow(caches, testers, 0) == testers[|caches|];
    }
  }

  lemma Distribute(a: int, b: int, c: int)
    ensures a * (b + c) == b * a + a * c
  {
  }

  /** The recursive construction creates exactly the counted number of testers. */
  lemma TestersAgree(caches: seq<int>, testers: seq<int>)
    requires |caches| == |testers| - 1
    ensures TestersBelow(caches, testers, |caches|) == Weighted(caches, testers, |testers|)
  {
    WeightedSplit(caches, testers, 0);
    assert caches[..0] == [] && Product([]) == 1;
  }

  /** The whole program after the specification was accepted. */
  method BuildTree(caches: seq<int>, testers: seq<int>, l1: Proto) returns (b: Builder, total: int)
    requires Accepted(caches, testers)
    ensures b.Valid() && b.caches == caches && b.testers == testers && IsScale(l1, caches, b.protos)
    ensures b.created == total == Weighted(caches, testers, |testers|) <= BLOCK_SIZE
    ensures forall l | 0 <= l <= |caches| :: IndicesAt(b.made, l) == Upto(Product(caches[..|caches| - l]))
    ensures forall k | 0 <= k < |b.made| :: Fits(b.made[k], caches, testers, b.protos)
  {
    total := NumTesters(caches, testers);
    var protos := MakeProtos(l1, caches);
    b := new Builder(caches, testers, protos);
    assert caches[0..] == caches && protos[0..] == protos;
    var ok := b.MakeCacheLevel(caches, protos, |caches|, false);
    forall k | 0 <= k < |b.made| ensures Fits(b.made[k], caches, testers, b.protos) {
      FitsEach(b.made, caches, testers, b.protos, k);
    }
    TestersAgree(caches, testers);
    forall l | 0 <= l <= |caches| ensures IndicesAt(b.made, l) == Upto(Product(caches[..|caches| - l])) {
      NumberedEach(b.made, b.next, |b.next|, l);
      BelowIsProduct(caches, |caches|, l);
      assert caches[0..|caches| - l] == caches[..|caches| - l];
    }
  }
}
