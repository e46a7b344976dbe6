/** Binding the ports of a configuration read from a file: one greedy pass over a list
    that names every connection in both directions, and a check on the number bound. */
module PortBinding {
  import opened Basics
  import opened Graphs

  datatype PortName = PortName(owner: string, port: string)

  datatype Port = Port(name: PortName, index: int)

  datatype Conn = Conn(source: Port, target: Port) {
    function Flip(): Conn {
      Conn(target, source)
    }
  }

  /** How many endpoints with this name have been bound. */
  function Count(bound: seq<Conn>, name: PortName): nat {
    if bound == [] then 0
    else
      var c := bound[|bound| - 1];
      Count(bound[..|bound| - 1], name)
      + (if c.source.name == name then 1 else 0) + (if c.target.name == name then 1 else 0)
  }

  /** The port is the next of its name to be bound. */
  predicate IsNext(bound: seq<Conn>, p: Port) {
    Count(bound, p.name) == p.index
  }

  datatype Pass = Bound(conns: seq<Conn>) | KeyError

  /** The pass over the connections in visiting order; `known` are the names that occur
      as a source. */
  function Greedy(order: seq<Conn>, known: set<PortName>): Pass {
    if order == [] then Bound([])
    else
      var p, c := Greedy(order[..|order| - 1], known), order[|order| - 1];
      if p.KeyError? || !IsNext(p.conns, c.source) then p
      else if c.target.name !in known then KeyError
      else if IsNext(p.conns, c.target) then Bound(p.conns + [c])
      else p
  }

  function Sources(conns: seq<Conn>): (r: set<PortName>)
    ensures forall i | 0 <= i < |conns| :: conns[i].source.name in r
  {
    set i | 0 <= i < |conns| :: conns[i].source.name
  }

  datatype Outcome = Made(conns: seq<Conn>) | MissingPort | Unorderable

  function Binding(conns: seq<Conn>, order: seq<Conn>): Outcome {
    match Greedy(order, Sources(conns))
    case KeyError => MissingPort
    case Bound(made) => if 2 * |made| == |conns| then Made(made) else Unorderable
  }

  /** One step of the pass. */
  lemma Visited(order: seq<Conn>, known: set<PortName>, n: nat, made: seq<Conn>)
    requires n < |order| && Greedy(order[..n], known) == Bound(made)
    ensures var c := order[n];
            Greedy(order[..n + 1], known)
            == if !IsNext(made, c.source) then Bound(made)
               else if c.target.name !in known then KeyError
               else Bound(if IsNext(made, c.target) then made + [c] else made)
  {
    assert order[..n + 1][..n] == order[..n];
  }

  function EndsAt(c: Conn, name: PortName): nat {
    (if c.source.name == name then 1 else 0) + (if c.target.name == name then 1 else 0)
  }

  lemma CountMore(bound: seq<Conn>, c: Conn, name: PortName)
    ensures Count(bound + [c], name) == Count(bound, name) + EndsAt(c, name)
  {
    assert (bound + [c])[..|bound|] == bound;
  }

  predicate Counted(indices: map<PortName, int>, made: seq<Conn>) {
    forall p | p in indices :: indices[p] == Count(made, p)
  }

  lemma CountedMore(indices: map<PortName, int>, made: seq<Conn>, c: Conn)
    requires Counted(indices, made) && c.source.name in indices && c.target.name in indices
    ensures var one := indices[c.source.name := indices[c.source.name] + 1];
            var both := one[c.target.name := one[c.target.name] + 1];
            both.Keys == indices.Keys && Counted(both, made + [c])
  {
    forall p ensures Count(made + [c], p) == Count(made, p) + EndsAt(c, p) {
      CountMore(made, c, p);
    }
  }

  /** Binds with a counter for each port name. `order` is the order of visiting. */
  method BindPorts(conns: seq<Conn>, order: seq<Conn>) returns (r: Outcome)
    requires multiset(order) == multiset(conns)
    ensures r == Binding(conns, order)
  {
    var indices: map<PortName, int> := map[];
    for n := 0 to |conns|
      invariant indices.Keys == Sources(conns[..n])
      invariant forall p | p in indices :: indices[p] == 0
    {
      indices := indices[conns[n].source.name := 0];
      SourcesMore(conns, n);
    }
    assert conns[..|conns|] == conns;
    var made: seq<Conn> := [];
    for n := 0 to |order|
      invariant indices.Keys == Sources(conns)
      invariant Counted(indices, made)
      invariant Greedy(order[..n], Sources(conns)) == Bound(made)
    {
      var c := order[n];
      Visited(order, Sources(conns), n, made);
      SourceKnown(conns, order, n);
      if indices[c.source.name] == c.source.index {
        if c.target.name !in indices {
          KeyErrorStays(order, Sources(conns), n + 1);
          return MissingPort;
        }
        if indices[c.target.name] == c.target.index {
          CountedMore(indices, made, c);
          made := made + [c];
          indices := indices[c.source.name := indices[c.source.name] + 1];
          indices := indices[c.target.name := indices[c.target.name] + 1];
        }
      }
    }
    assert order[..|order|] == order;
    if 2 * |made| != |conns| {
      return Unorderable;
    }
    r := Made(made);
  }

  lemma SourcesMore(conns: seq<Conn>, n: nat)
    requires n < |conns|
    ensures Sources(conns[..n + 1]) == Sources(conns[..n]) + {conns[n].source.name}
  {
  }

  lemma SourceKnown(conns: seq<Conn>, order: seq<Conn>, n: nat)
    requires multiset(order) == multiset(conns) && n < |order|
    ensures order[n].source.name in Sources(conns)
  {
    assert order[n] in multiset(order);
    assert order[n] in conns;
  }

  lemma KeyErrorStays(order: seq<Conn>, known: set<PortName>, n: nat)
    requires n <= |order| && Greedy(order[..n], known).KeyError?
    ensures Greedy(order, known).KeyError?
    decreases |order| - n
  {
    if n < |order| {
      assert order[..n + 1][..n] == order[..n];
      KeyErrorStays(order, known, n + 1);
    } else {
      assert order[..n] == order;
    }
  }

  // ---------- What was bound ----------

  /** Every port gets its connections at indices 0, 1, 2, ... in this order. */
  predicate InIndexOrder(bound: seq<Conn>) {
    forall k | 0 <= k < |bound| :: IsNext(bound[..k], bound[k].source) && IsNext(bound[..k], bound[k].target)
  }

  lemma {:induction false} GreedyInOrder(order: seq<Conn>, known: set<PortName>)
    requires Greedy(order, known).Bound?
    ensures InIndexOrder(Greedy(order, known).conns)
    ensures forall c | c in Greedy(order, known).conns :: c in order
  {
    if order != [] {
      GreedyInOrder(order[..|order| - 1], known);
      var before, after := Greedy(order[..|order| - 1], known).conns, Greedy(order, known).conns;
      if after != before {
        forall k | 0 <= k < |after| ensures IsNext(after[..k], after[k].source) && IsNext(after[..k], after[k].target) {
          assert after[..k] == before[..k];
        }
      }
    }
  }

  lemma CountGrows(bound: seq<Conn>, i: nat, j: nat, name: PortName)
    requires i <= j <= |bound|
    ensures Count(bound[..i], name) <= Count(bound[..j], name)
    decreases j - i
  {
    if i < j {
      assert bound[..j][..j - 1] == bound[..j - 1];
      CountGrows(bound, i, j - 1, name);
    }
  }

  /** An endpoint of a bound connection has been counted afterwards. */
  lemma CountedAfter(bound: seq<Conn>, k: nat, j: nat, p: Port)
    requires InIndexOrder(bound) && k < j <= |bound| && (p == bound[k].source || p == bound[k].target)
    ensures Count(bound[..j], p.name) > p.index
  {
    assert bound[..k + 1][..k] == bound[..k];
    CountGrows(bound, k + 1, j, p.name);
  }

  predicate NoSelf(bound: seq<Conn>) {
    forall k | 0 <= k < |bound| :: bound[k].source != bound[k].target
  }

  /** No endpoint is bound twice. */
  lemma EndpointsDistinct(bound: seq<Conn>, i: nat, j: nat)
    requires InIndexOrder(bound) && i < j < |bound|
    ensures bound[i].source != bound[j].source && bound[i].source != bound[j].target
    ensures bound[i].target != bound[j].source && bound[i].target != bound[j].target
  {
    CountedAfter(bound, i, j, bound[i].source);
    CountedAfter(bound, i, j, bound[i].target);
    assert IsNext(bound[..j], bound[j].source) && IsNext(bound[..j], bound[j].target);
  }

  // ---------- The half-count check ----------

  predicate Symmetric(conns: seq<Conn>) {
    forall c | c in conns :: c.Flip() in conns
  }

  function Flips(s: set<Conn>): (r: set<Conn>)
    ensures forall c :: c in r <==> c.Flip() in s
  {
    var r := set c | c in s :: c.Flip();
    assert forall c: Conn :: c.Flip().Flip() == c;
    r
  }

  lemma FlipsCount(s: set<Conn>)
    ensures |Flips(s)| == |s|
  {
    if s != {} {
      var c :| c in s;
      FlipsCount(s - {c});
      assert Flips(s) == Flips(s - {c}) + {c.Flip()};
      assert c.Flip().Flip() == c;
    }
  }

  function Elements(s: seq<Conn>): (r: set<Conn>)
    ensures forall c :: c in r <==> c in s
  {
    set c | c in s
  }

  lemma EqualBySize<T>(a: set<T>, b: set<T>)
    requires a <= b && |a| == |b|
    ensures a == b
  {
    if exists x :: x in b && x !in a {
      var x :| x in b && x !in a;
      SubsetCount(a, b - {x});
    }
  }

  /** Both directions of a connection are never bound together. */
  lemma OneDirection(bound: seq<Conn>, c: Conn)
    requires InIndexOrder(bound) && NoSelf(bound) && c in bound
    ensures c.Flip() !in bound
  {
    var i :| 0 <= i < |bound| && bound[i] == c;
    if c.Flip() in bound {
      var j :| 0 <= j < |bound| && bound[j] == c.Flip();
      if i < j {
        EndpointsDistinct(bound, i, j);
      } else if j < i {
        EndpointsDistinct(bound, j, i);
      }
    }
  }

  lemma BoundDistinct(bound: seq<Conn>)
    requires InIndexOrder(bound)
    ensures Distinct(bound)
  {
    forall i, j | 0 <= i < j < |bound| ensures bound[i] != bound[j] {
      EndpointsDistinct(bound, i, j);
    }
  }

  /** Exactly one direction of every connection is in `bound`, each port is bound at
      indices 0, 1, 2, ... and nothing else is bound. */
  ghost predicate CompleteBinding(conns: seq<Conn>, bound: seq<Conn>) {
    && InIndexOrder(bound)
    && (forall c | c in bound :: c in conns)
    && (forall c | c in conns :: c in bound <==> c.Flip() !in bound)
  }

  lemma HalfIsAll(conns: seq<Conn>, bound: seq<Conn>)
    requires Distinct(conns) && Symmetric(conns) && NoSelf(bound) && InIndexOrder(bound)
    requires forall c | c in bound :: c in conns
    requires 2 * |bound| == |conns|
    ensures CompleteBinding(conns, bound)
  {
    var all, made := Elements(conns), Elements(bound);
    BoundDistinct(bound);
    DistinctCount(conns);
    DistinctCount(bound);
    FlipsCount(made);
    forall c | c in made ensures c !in Flips(made) {
      OneDirection(bound, c);
    }
    assert made + Flips(made) <= all by {
      forall c | c in Flips(made) ensures c in all {
        assert c.Flip() in conns && c.Flip().Flip() == c;
      }
    }
    assert |made + Flips(made)| == |made| + |Flips(made)|;
    EqualBySize(made + Flips(made), all);
    forall c | c in conns ensures c in bound <==> c.Flip() !in bound {
      assert c in made + Flips(made);
      if c in bound {
        OneDirection(bound, c);
      }
    }
  }

  /** Main result: for a symmetric list without duplicates and self-connections, visited
      in any order, passing the check means that the binding is complete. */
  lemma {:induction false} CheckIsSound(conns: seq<Conn>, order: seq<Conn>)
    requires Distinct(conns) && Symmetric(conns) && NoSelf(conns) && multiset(order) == multiset(conns)
    requires Binding(conns, order).Made?
    ensures CompleteBinding(conns, Binding(conns, order).conns)
  {
    var made := Binding(conns, order).conns;
    GreedyInOrder(order, Sources(conns));
    forall c | c in made ensures c in conns && c.source != c.target {
      assert c in multiset(order);
    }
    HalfIsAll(conns, made);
  }

  lemma {:induction false} NoKeyError(order: seq<Conn>, known: set<PortName>)
    requires forall c | c in order :: c.target.name in known
    ensures Greedy(order, known).Bound?
  {
    if order != [] {
      NoKeyError(order[..|order| - 1], known);
    }
  }

  /** A list with both directions never names an unknown port. */
  lemma SymmetricNeverMissing(conns: seq<Conn>, order: seq<Conn>)
    requires Symmetric(conns) && multiset(order) == multiset(conns)
    ensures !Binding(conns, order).MissingPort?
  {
    forall c | c in order ensures c.target.name in Sources(conns) {
      assert c in multiset(order);
      var i :| 0 <= i < |conns| && conns[i] == c.Flip();
    }
    NoKeyError(order, Sources(conns));
  }

  // ---------- When some order of visiting succeeds ----------

  /** Visiting a complete binding first and the other directions after it. */
  function FlipAll(bound: seq<Conn>): (r: seq<Conn>)
    ensures |r| == |bound| && forall k | 0 <= k < |r| :: r[k] == bound[k].Flip()
  {
    seq(|bound|, k requires 0 <= k < |bound| => bound[k].Flip())
  }

  lemma {:induction false} GreedyTakesAll(bound: seq<Conn>, known: set<PortName>, n: nat)
    requires InIndexOrder(bound) && n <= |bound|
    requires forall c | c in bound :: c.target.name in known
    ensures Greedy(bound[..n], known) == Bound(bound[..n])
  {
    if n > 0 {
      GreedyTakesAll(bound, known, n - 1);
      assert bound[..n][..n - 1] == bound[..n - 1];
      assert bound[n - 1] in bound && IsNext(bound[..n - 1], bound[n - 1].source);
    }
  }

  lemma GreedySkips(order: seq<Conn>, c: Conn, known: set<PortName>, made: seq<Conn>)
    requires Greedy(order, known) == Bound(made) && !IsNext(made, c.source)
    ensures Greedy(order + [c], known) == Bound(made)
  {
  }

  lemma FlipNotNext(bound: seq<Conn>, k: nat)
    requires InIndexOrder(bound) && k < |bound|
    ensures !IsNext(bound, bound[k].Flip().source)
  {
    assert bound[..|bound|] == bound;
    CountedAfter(bound, k, |bound|, bound[k].target);
  }

  ghost predicate NoneNext(made: seq<Conn>, rest: seq<Conn>) {
    forall k | 0 <= k < |rest| :: !IsNext(made, rest[k].source)
  }

  lemma AppendLast(order: seq<Conn>, rest: seq<Conn>, n: nat)
    requires n < |rest|
    ensures order + rest[..n + 1] == order + rest[..n] + [rest[n]]
  {
  }

  lemma {:induction false} GreedyIgnores(order: seq<Conn>, rest: seq<Conn>, known: set<PortName>, made: seq<Conn>, n: nat)
    requires Greedy(order, known) == Bound(made) && NoneNext(made, rest) && n <= |rest|
    ensures Greedy(order + rest[..n], known) == Bound(made)
  {
    if n == 0 {
      assert order + rest[..0] == order;
    } else {
      GreedyIgnores(order, rest, known, made, n - 1);
      AppendLast(order, rest, n - 1);
      GreedySkips(order + rest[..n - 1], rest[n - 1], known, made);
    }
  }

  lemma GreedySkipsFlips(bound: seq<Conn>, known: set<PortName>)
    requires InIndexOrder(bound)
    requires forall c | c in bound :: c.target.name in known
    ensures Greedy(bound + FlipAll(bound), known) == Bound(bound)
  {
    GreedyTakesAll(bound, known, |bound|);
    assert bound[..|bound|] == bound;
    forall k | 0 <= k < |bound| ensures !IsNext(bound, FlipAll(bound)[k].source) {
      FlipNotNext(bound, k);
    }
    GreedyIgnores(bound, FlipAll(bound), known, bound, |bound|);
    assert FlipAll(bound)[..|bound|] == FlipAll(bound);
  }

  lemma {:induction false} AtMostOnce(s: seq<Conn>, c: Conn)
    requires Distinct(s)
    ensures multiset(s)[c] == if c in s then 1 else 0
  {
    if s != [] {
      var front, last := s[..|s| - 1], s[|s| - 1];
      AtMostOnce(front, c);
      assert s == front + [last];
      assert multiset(s)[c] == multiset(front)[c] + multiset([last])[c];
      assert last !in front;
    }
  }

  lemma SameElements(s: seq<Conn>, t: seq<Conn>)
    requires Distinct(s) && Distinct(t) && forall c :: c in s <==> c in t
    ensures multiset(s) == multiset(t)
  {
    forall c: Conn ensures multiset(s)[c] == multiset(t)[c] {
      AtMostOnce(s, c);
      AtMostOnce(t, c);
    }
  }

  lemma BothDirectionsDistinct(bound: seq<Conn>)
    requires InIndexOrder(bound) && NoSelf(bound)
    ensures Distinct(bound + FlipAll(bound))
  {
    var order := bound + FlipAll(bound);
    BoundDistinct(bound);
    forall i, j | 0 <= i < j < |order| ensures order[i] != order[j] {
      if i < |bound| <= j {
        OneDirection(bound, bound[j - |bound|]);
        assert order[i] in bound;
      } else if |bound| <= i {
        assert bound[i - |bound|] != bound[j - |bound|];
      }
    }
  }

  lemma FlipAllElements(bound: seq<Conn>, c: Conn)
    ensures c in FlipAll(bound) <==> c.Flip() in bound
  {
  }

  lemma BothDirectionsAreAll(conns: seq<Conn>, bound: seq<Conn>)
    requires Distinct(conns) && Symmetric(conns) && NoSelf(conns) && CompleteBinding(conns, bound)
    ensures multiset(bound + FlipAll(bound)) == multiset(conns)
  {
    var order := bound + FlipAll(bound);
    forall k | 0 <= k < |bound| ensures bound[k].source != bound[k].target {
      assert bound[k] in conns;
    }
    BothDirectionsDistinct(bound);
    forall c: Conn ensures c in order <==> c in conns {
      FlipAllElements(bound, c);
      assert c.Flip().Flip() == c;
    }
    SameElements(order, conns);
  }

  ghost predicate Succeeds(conns: seq<Conn>, order: seq<Conn>) {
    multiset(order) == multiset(conns) && Binding(conns, order).Made?
  }

  lemma CompleteSucceeds(conns: seq<Conn>, bound: seq<Conn>)
    requires Distinct(conns) && Symmetric(conns) && NoSelf(conns) && CompleteBinding(conns, bound)
    ensures Succeeds(conns, bound + FlipAll(bound))
    ensures Binding(conns, bound + FlipAll(bound)).conns == bound
  {
    var order := bound + FlipAll(bound);
    BothDirectionsAreAll(conns, bound);
    assert |order| == |conns| by {
      assert |multiset(order)| == |order| && |multiset(conns)| == |conns|;
    }
    forall c | c in bound ensures c.target.name in Sources(conns) {
      var i :| 0 <= i < |conns| && conns[i] == c.Flip();
    }
    GreedySkipsFlips(bound, Sources(conns));
  }

  /** The bindings that some order of visiting produces are exactly the complete ones. */
  lemma ReachableBindings(conns: seq<Conn>, bound: seq<Conn>)
    requires Distinct(conns) && Symmetric(conns) && NoSelf(conns)
    ensures CompleteBinding(conns, bound) <==>
            exists order :: Succeeds(conns, order) && Binding(conns, order).conns == bound
  {
    if CompleteBinding(conns, bound) {
      CompleteSucceeds(conns, bound);
    }
    if order :| Succeeds(conns, order) && Binding(conns, order).conns == bound {
      CheckIsSound(conns, order);
    }
  }

  // ---------- When the given order of visiting succeeds ----------

  /** `b` can be read off while visiting `order`. */
  predicate Subsequence(b: seq<Conn>, order: seq<Conn>) {
    if order == [] then b == []
    else
      var front := order[..|order| - 1];
      Subsequence(b, front) || (b != [] && b[|b| - 1] == order[|order| - 1] && Subsequence(b[..|b| - 1], front))
  }

  lemma {:induction false} GreedySubsequence(order: seq<Conn>, known: set<PortName>)
    requires Greedy(order, known).Bound?
    ensures Subsequence(Greedy(order, known).conns, order)
  {
    if order != [] {
      GreedySubsequence(order[..|order| - 1], known);
      var before, after := Greedy(order[..|order| - 1], known).conns, Greedy(order, known).conns;
      if after != before {
        assert after[..|after| - 1] == before;
      }
    }
  }

  ghost predicate HasEnd(bound: seq<Conn>, p: Port) {
    exists k :: 0 <= k < |bound| && (bound[k].source == p || bound[k].target == p)
  }

  lemma EndMore(bound: seq<Conn>, p: Port)
    requires bound != []
    ensures var c := bound[|bound| - 1];
            HasEnd(bound, p) <==> HasEnd(bound[..|bound| - 1], p) || c.source == p || c.target == p
  {
    var front := bound[..|bound| - 1];
    if k :| 0 <= k < |front| && (front[k].source == p || front[k].target == p) {
      assert bound[k] == front[k];
    }
    if k :| 0 <= k < |bound| && (bound[k].source == p || bound[k].target == p) {
      assert k < |front| ==> front[k] == bound[k];
    }
  }

  lemma FrontInOrder(bound: seq<Conn>)
    requires InIndexOrder(bound) && NoSelf(bound) && bound != []
    ensures InIndexOrder(bound[..|bound| - 1]) && NoSelf(bound[..|bound| - 1])
  {
    var front := bound[..|bound| - 1];
    forall k | 0 <= k < |front| ensures IsNext(front[..k], front[k].source) && IsNext(front[..k], front[k].target) {
      assert front[..k] == bound[..k] && front[k] == bound[k];
    }
  }

  /** The bound endpoints of a name are those with the first indices. */
  lemma {:induction false} EndsFill(bound: seq<Conn>, p: Port)
    requires InIndexOrder(bound) && NoSelf(bound)
    ensures HasEnd(bound, p) <==> 0 <= p.index < Count(bound, p.name)
  {
    if bound != [] {
      var front, c := bound[..|bound| - 1], bound[|bound| - 1];
      FrontInOrder(bound);
      EndsFill(front, p);
      EndMore(bound, p);
      assert IsNext(front, c.source) && IsNext(front, c.target);
    }
  }

  lemma PrefixInOrder(bound: seq<Conn>, k: nat)
    requires InIndexOrder(bound) && NoSelf(bound) && k <= |bound|
    ensures InIndexOrder(bound[..k]) && NoSelf(bound[..k])
  {
    forall j | 0 <= j < k ensures IsNext(bound[..k][..j], bound[..k][j].source) && IsNext(bound[..k][..j], bound[..k][j].target) {
      assert bound[..k][..j] == bound[..j];
    }
  }

  predicate Either(made: seq<Conn>, c: Conn) {
    c in made || c.Flip() in made
  }

  ghost predicate Covers(made: seq<Conn>, bound: seq<Conn>, k: nat)
    requires k <= |bound|
  {
    forall j | 0 <= j < k :: Either(made, bound[j])
  }

  lemma EitherHasEnds(made: seq<Conn>, c: Conn)
    requires Either(made, c)
    ensures HasEnd(made, c.source) && HasEnd(made, c.target)
  {
    var k :| 0 <= k < |made| && (made[k] == c || made[k] == c.Flip());
  }

  /** An endpoint belongs to one connection only. */
  lemma OneOwner(conns: seq<Conn>, bound: seq<Conn>, made: seq<Conn>, k: nat, p: Port)
    requires CompleteBinding(conns, bound) && k < |bound| && (p == bound[k].source || p == bound[k].target)
    requires (forall c | c in made :: c in conns) && HasEnd(made, p)
    ensures Either(made, bound[k])
  {
    var n :| 0 <= n < |made| && (made[n].source == p || made[n].target == p);
    var d := made[n];
    assert d in made && d in conns;
    var e := if d in bound then d else d.Flip();
    var j :| 0 <= j < |bound| && bound[j] == e;
    if j < k {
      EndpointsDistinct(bound, j, k);
    } else if k < j {
      EndpointsDistinct(bound, k, j);
    }
    assert e.Flip().Flip() == e;
  }

  /** A connection whose turn it is, and that is not bound yet, can be bound. */
  lemma TurnIsNext(conns: seq<Conn>, bound: seq<Conn>, made: seq<Conn>, k: nat, p: Port)
    requires CompleteBinding(conns, bound) && NoSelf(bound) && k < |bound| && (p == bound[k].source || p == bound[k].target)
    requires InIndexOrder(made) && NoSelf(made) && (forall c | c in made :: c in conns)
    requires Covers(made, bound, k) && !Either(made, bound[k])
    ensures IsNext(made, p)
  {
    var have, index := Count(made, p.name), p.index;
    assert IsNext(bound[..k], bound[k].source) && IsNext(bound[..k], bound[k].target);
    if have > index {
      EndsFill(made, p);
      OneOwner(conns, bound, made, k, p);
    } else if have < index {
      var q := Port(p.name, have);
      PrefixInOrder(bound, k);
      EndsFill(bound[..k], q);
      var j :| 0 <= j < k && (bound[..k][j].source == q || bound[..k][j].target == q);
      EitherHasEnds(made, bound[j]);
      EndsFill(made, q);
    }
  }

  lemma GreedyProper(conns: seq<Conn>, order: seq<Conn>)
    requires Symmetric(conns) && NoSelf(conns) && forall c | c in order :: c in conns
    ensures Greedy(order, Sources(conns)).Bound?
    ensures var made := Greedy(order, Sources(conns)).conns;
            InIndexOrder(made) && NoSelf(made) && forall c | c in made :: c in conns
  {
    forall c | c in order ensures c.target.name in Sources(conns) {
      var i :| 0 <= i < |conns| && conns[i] == c.Flip();
    }
    NoKeyError(order, Sources(conns));
    GreedyInOrder(order, Sources(conns));
    var made := Greedy(order, Sources(conns)).conns;
    forall k | 0 <= k < |made| ensures made[k].source != made[k].target {
      assert made[k] in made;
    }
  }

  /** What is bound stays bound. */
  lemma CoversStay(order: seq<Conn>, known: set<PortName>, bound: seq<Conn>, k: nat)
    requires order != [] && Greedy(order, known).Bound? && k <= |bound|
    requires Covers(Greedy(order[..|order| - 1], known).conns, bound, k)
    ensures Covers(Greedy(order, known).conns, bound, k)
  {
    var before, after := Greedy(order[..|order| - 1], known).conns, Greedy(order, known).conns;
    forall j | 0 <= j < k ensures Either(after, bound[j]) {
      assert Either(before, bound[j]);
    }
  }

  /** Visiting a connection when its turn has come leaves it bound. */
  lemma TurnIsTaken(conns: seq<Conn>, bound: seq<Conn>, front: seq<Conn>, k: nat)
    requires Symmetric(conns) && NoSelf(conns) && CompleteBinding(conns, bound) && NoSelf(bound) && k < |bound|
    requires forall c | c in front :: c in conns
    requires Greedy(front, Sources(conns)).Bound? && Covers(Greedy(front, Sources(conns)).conns, bound, k)
    ensures Greedy(front + [bound[k]], Sources(conns)).Bound?
    ensures Either(Greedy(front + [bound[k]], Sources(conns)).conns, bound[k])
  {
    var known, c := Sources(conns), bound[k];
    var made := Greedy(front, known).conns;
    GreedyProper(conns, front);
    assert (front + [c])[..|front|] == front;
    assert c in bound && c.Flip() in conns;
    var i :| 0 <= i < |conns| && conns[i] == c.Flip();
    if !Either(made, c) {
      TurnIsNext(conns, bound, made, k, c.source);
      TurnIsNext(conns, bound, made, k, c.target);
    }
  }

  lemma CoversOneMore(made: seq<Conn>, bound: seq<Conn>, k: nat)
    requires 0 < k <= |bound| && Covers(made, bound, k - 1) && Either(made, bound[k - 1])
    ensures Covers(made, bound, k)
  {
  }

  /** What can be read off while visiting is bound. */
  lemma {:induction false} GreedyCovers(conns: seq<Conn>, bound: seq<Conn>, order: seq<Conn>, k: nat)
    requires Symmetric(conns) && NoSelf(conns) && CompleteBinding(conns, bound) && NoSelf(bound) && k <= |bound|
    requires (forall c | c in order :: c in conns) && Subsequence(bound[..k], order)
    ensures Greedy(order, Sources(conns)).Bound? && Covers(Greedy(order, Sources(conns)).conns, bound, k)
    decreases |order|
  {
    GreedyProper(conns, order);
    if order == [] {
      assert k == 0;
    } else {
      var front := order[..|order| - 1];
      if Subsequence(bound[..k], front) {
        GreedyCovers(conns, bound, front, k);
        CoversStay(order, Sources(conns), bound, k);
      } else {
        assert bound[..k][..k - 1] == bound[..k - 1];
        assert order == front + [bound[k - 1]];
        GreedyCovers(conns, bound, front, k - 1);
        CoversStay(order, Sources(conns), bound, k - 1);
        TurnIsTaken(conns, bound, front, k - 1);
        CoversOneMore(Greedy(order, Sources(conns)).conns, bound, k);
      }
    }
  }

  /** Main result: for any order of visiting, also the sorted one, the pass succeeds exactly
      if some complete binding can be read off in that order. */
  lemma {:induction false} SucceedsExactly(conns: seq<Conn>, order: seq<Conn>)
    requires Distinct(conns) && Symmetric(conns) && NoSelf(conns) && multiset(order) == multiset(conns)
    ensures Binding(conns, order).Made? <==> exists bound :: CompleteBinding(conns, bound) && Subsequence(bound, order)
  {
    if Binding(conns, order).Made? {
      CheckIsSound(conns, order);
      GreedySubsequence(order, Sources(conns));
    }
    if bound :| CompleteBinding(conns, bound) && Subsequence(bound, order) {
      CoveredIsMade(conns, order, bound);
    }
  }

  lemma CoveredIsMade(conns: seq<Conn>, order: seq<Conn>, bound: seq<Conn>)
    requires Distinct(conns) && Symmetric(conns) && NoSelf(conns) && multiset(order) == multiset(conns)
    requires CompleteBinding(conns, bound) && Subsequence(bound, order)
    ensures Binding(conns, order).Made?
  {
    forall c | c in order ensures c in conns {
      assert c in multiset(order);
    }
    forall k | 0 <= k < |bound| ensures bound[k].source != bound[k].target {
      assert bound[k] in bound;
    }
    assert bound[..|bound|] == bound;
    GreedyProper(conns, order);
    GreedyCovers(conns, bound, order, |bound|);
    var made := Greedy(order, Sources(conns)).conns;
    forall c | c in conns ensures c in made <==> c.Flip() !in made {
      MadeOneWay(conns, bound, made, c);
    }
    BothDirectionsAreAll(conns, made);
    assert |made + FlipAll(made)| == |conns| by {
      assert |multiset(made + FlipAll(made))| == |multiset(conns)|;
    }
  }

  lemma MadeOneWay(conns: seq<Conn>, bound: seq<Conn>, made: seq<Conn>, c: Conn)
    requires CompleteBinding(conns, bound) && c in conns && InIndexOrder(made) && NoSelf(made)
    requires Covers(made, bound, |bound|)
    ensures c in made <==> c.Flip() !in made
  {
    var e := if c in bound then c else c.Flip();
    var j :| 0 <= j < |bound| && bound[j] == e;
    assert Either(made, bound[j]) && c.Flip().Flip() == c;
    if c in made {
      OneDirection(made, c);
    }
  }

  // ---------- Sorting is not enough ----------

  /** Texts in dictionary order. */
  predicate TextBefore(s: string, t: string) {
    t != [] && (s == [] || s[0] < t[0] || (s[0] == t[0] && TextBefore(s[1..], t[1..])))
  }

  predicate PortBefore(p: Port, q: Port) {
    || TextBefore(p.name.owner, q.name.owner)
    || (p.name.owner == q.name.owner
        && (TextBefore(p.name.port, q.name.port) || (p.name.port == q.name.port && p.index < q.index)))
  }

  predicate ConnBefore(c: Conn, d: Conn) {
    PortBefore(c.source, d.source) || (c.source == d.source && PortBefore(c.target, d.target))
  }

  predicate Sorted(order: seq<Conn>) {
    forall k | 0 <= k < |order| - 1 :: ConnBefore(order[k], order[k + 1])
  }

  function Wire(a: PortName, i: int, b: PortName, j: int): Conn {
    Conn(Port(a, i), Port(b, j))
  }

  /** Five port names. */
  datatype Plugs = Plugs(a: PortName, b: PortName, c: PortName, y: PortName, z: PortName) {
    predicate Differ() {
      && a != b && a != c && a != y && a != z && b != c && b != y && b != z
      && c != y && c != z && y != z
    }
  }

  /** Four connections in both directions: a[0]-c[0], a[1]-z[1], a[2]-b[0] and y[0]-z[0]. */
  function Tangle(p: Plugs): seq<Conn> {
    [Wire(p.a, 0, p.c, 0), Wire(p.a, 1, p.z, 1), Wire(p.a, 2, p.b, 0), Wire(p.b, 0, p.a, 2),
     Wire(p.c, 0, p.a, 0), Wire(p.y, 0, p.z, 0), Wire(p.z, 0, p.y, 0), Wire(p.z, 1, p.a, 1)]
  }

  predicate Counts(bound: seq<Conn>, p: Plugs, a: nat, b: nat, c: nat, y: nat, z: nat) {
    Count(bound, p.a) == a && Count(bound, p.b) == b && Count(bound, p.c) == c && Count(bound, p.y) == y && Count(bound, p.z) == z
  }

  lemma CountsMore(bound: seq<Conn>, p: Plugs, w: Conn)
    ensures Count(bound + [w], p.a) == Count(bound, p.a) + EndsAt(w, p.a)
    ensures Count(bound + [w], p.b) == Count(bound, p.b) + EndsAt(w, p.b)
    ensures Count(bound + [w], p.c) == Count(bound, p.c) + EndsAt(w, p.c)
    ensures Count(bound + [w], p.y) == Count(bound, p.y) + EndsAt(w, p.y)
    ensures Count(bound + [w], p.z) == Count(bound, p.z) + EndsAt(w, p.z)
  {
    CountMore(bound, w, p.a);
    CountMore(bound, w, p.b);
    CountMore(bound, w, p.c);
    CountMore(bound, w, p.y);
    CountMore(bound, w, p.z);
  }

  /** What is bound of them after one, two, three and four connections, in index order. */
  function First(p: Plugs): seq<Conn> { [Wire(p.a, 0, p.c, 0)] }
  function Second(p: Plugs): seq<Conn> { First(p) + [Wire(p.y, 0, p.z, 0)] }
  function Third(p: Plugs): seq<Conn> { Second(p) + [Wire(p.z, 1, p.a, 1)] }
  function Untangled(p: Plugs): seq<Conn> { Third(p) + [Wire(p.a, 2, p.b, 0)] }

  lemma FirstCounts(p: Plugs)
    requires p.Differ()
    ensures Counts([], p, 0, 0, 0, 0, 0) && Counts(First(p), p, 1, 0, 1, 0, 0)
  {
    CountsMore([], p, Wire(p.a, 0, p.c, 0));
    assert [] + [Wire(p.a, 0, p.c, 0)] == First(p);
  }

  lemma SecondCounts(p: Plugs)
    requires p.Differ()
    ensures Counts(Second(p), p, 1, 0, 1, 1, 1)
  {
    FirstCounts(p);
    CountsMore(First(p), p, Wire(p.y, 0, p.z, 0));
  }

  lemma ThirdCounts(p: Plugs)
    requires p.Differ()
    ensures Counts(Third(p), p, 2, 0, 1, 1, 2)
  {
    SecondCounts(p);
    CountsMore(Second(p), p, Wire(p.z, 1, p.a, 1));
  }

  lemma Visit(order: seq<Conn>, known: set<PortName>, n: nat, made: seq<Conn>, c: Conn)
    requires n < |order| && Greedy(order[..n], known) == Bound(made) && order[n] == c && c.target.name in known
    ensures Greedy(order[..n + 1], known)
         == Bound(if Count(made, c.source.name) == c.source.index && Count(made, c.target.name) == c.target.index
                  then made + [c] else made)
  {
    Visited(order, known, n, made);
  }

  lemma TangleWaitsTwice(p: Plugs, t: seq<Conn>, known: set<PortName>, made: seq<Conn>)
    requires p.Differ() && {p.a, p.b, p.c, p.y, p.z} <= known && t == Tangle(p)
    requires Greedy(t[..1], known) == Bound(made) && Counts(made, p, 1, 0, 1, 0, 0)
    ensures Greedy(t[..3], known) == Bound(made)
  {
    Visit(t, known, 1, made, Wire(p.a, 1, p.z, 1));
    Visit(t, known, 2, made, Wire(p.a, 2, p.b, 0));
  }

  /** After a[0]-c[0] the next four visits bind nothing. */
  lemma TangleWaits(p: Plugs, t: seq<Conn>, known: set<PortName>, made: seq<Conn>)
    requires p.Differ() && {p.a, p.b, p.c, p.y, p.z} <= known && t == Tangle(p)
    requires Greedy(t[..1], known) == Bound(made) && Counts(made, p, 1, 0, 1, 0, 0)
    ensures Greedy(t[..5], known) == Bound(made)
  {
    TangleWaitsTwice(p, t, known, made);
    Visit(t, known, 3, made, Wire(p.b, 0, p.a, 2));
    Visit(t, known, 4, made, Wire(p.c, 0, p.a, 0));
  }

  /** The last three visits bind y[0]-z[0] and z[1]-a[1]. */
  lemma TangleEnds(p: Plugs, t: seq<Conn>, known: set<PortName>, made: seq<Conn>, more: seq<Conn>)
    requires p.Differ() && {p.a, p.b, p.c, p.y, p.z} <= known && t == Tangle(p)
    requires Greedy(t[..5], known) == Bound(made) && Counts(made, p, 1, 0, 1, 0, 0)
    requires more == made + [Wire(p.y, 0, p.z, 0)] && Counts(more, p, 1, 0, 1, 1, 1)
    ensures Greedy(t[..8], known) == Bound(more + [Wire(p.z, 1, p.a, 1)])
  {
    Visit(t, known, 5, made, Wire(p.y, 0, p.z, 0));
    Visit(t, known, 6, more, Wire(p.z, 0, p.y, 0));
    Visit(t, known, 7, more, Wire(p.z, 1, p.a, 1));
  }

  lemma TangleStarts(p: Plugs, t: seq<Conn>, known: set<PortName>)
    requires p.Differ() && p.c in known && t == Tangle(p)
    ensures Greedy(t[..1], known) == Bound(First(p))
  {
    assert t[..0] == [] && [] + [Wire(p.a, 0, p.c, 0)] == First(p);
    Visit(t, known, 0, [], Wire(p.a, 0, p.c, 0));
  }

  /** The pass binds three of the four connections. */
  lemma TanglePass(p: Plugs, t: seq<Conn>, known: set<PortName>)
    requires p.Differ() && {p.a, p.b, p.c, p.y, p.z} <= known && t == Tangle(p)
    ensures Greedy(t, known) == Bound(Third(p))
  {
    FirstCounts(p);
    SecondCounts(p);
    TangleStarts(p, t, known);
    TangleWaits(p, t, known, First(p));
    TangleEnds(p, t, known, First(p), Second(p));
    assert t[..8] == t;
  }

  lemma InOrderMore(bound: seq<Conn>, c: Conn)
    requires InIndexOrder(bound) && IsNext(bound, c.source) && IsNext(bound, c.target)
    ensures InIndexOrder(bound + [c])
  {
    var all := bound + [c];
    forall k | 0 <= k < |all| ensures IsNext(all[..k], all[k].source) && IsNext(all[..k], all[k].target) {
      assert all[..k] == bound[..k];
      assert k == |bound| ==> all[..k] == bound;
    }
  }

  lemma UntangledInOrder(p: Plugs)
    requires p.Differ()
    ensures InIndexOrder(Untangled(p))
  {
    FirstCounts(p);
    SecondCounts(p);
    ThirdCounts(p);
    assert [] + [Wire(p.a, 0, p.c, 0)] == First(p);
    InOrderMore([], Wire(p.a, 0, p.c, 0));
    InOrderMore(First(p), Wire(p.y, 0, p.z, 0));
    InOrderMore(Second(p), Wire(p.z, 1, p.a, 1));
    InOrderMore(Third(p), Wire(p.a, 2, p.b, 0));
  }

  /** The list as it is needed: both directions, nothing twice, nothing to itself. */
  lemma TangleIsProper(p: Plugs)
    requires p.Differ()
    ensures Distinct(Tangle(p)) && Symmetric(Tangle(p)) && NoSelf(Tangle(p))
  {
    var t := Tangle(p);
    forall c | c in t ensures c.Flip() in t {
      assert t[0].Flip() == t[4] && t[1].Flip() == t[7] && t[2].Flip() == t[3] && t[5].Flip() == t[6];
      assert t[4].Flip() == t[0] && t[7].Flip() == t[1] && t[3].Flip() == t[2] && t[6].Flip() == t[5];
    }
  }

  lemma UntangledIsComplete(p: Plugs)
    requires p.Differ()
    ensures CompleteBinding(Tangle(p), Untangled(p))
  {
    UntangledInOrder(p);
    var t, u := Tangle(p), Untangled(p);
    assert u == [t[0], t[5], t[7], t[2]];
  }

  function Letters(): Plugs {
    Plugs(PortName("a", "p"), PortName("b", "p"), PortName("c", "p"), PortName("y", "p"), PortName("z", "p"))
  }

  lemma LettersDiffer()
    ensures Letters().Differ()
  {
    var p := Letters();
    assert p.a.owner[0] == 'a' && p.b.owner[0] == 'b' && p.c.owner[0] == 'c' && p.y.owner[0] == 'y' && p.z.owner[0] == 'z';
  }

  lemma LettersSorted()
    ensures Sorted(Tangle(Letters()))
  {
  }

  /** The sorted pass can miss a binding that exists: of the four connections it binds three. */
  lemma SortedCanMiss()
    ensures var t := Tangle(Letters());
            && Sorted(t) && Distinct(t) && Symmetric(t) && NoSelf(t)
            && Greedy(t, Sources(t)) == Bound(Third(Letters())) && Binding(t, t) == Unorderable
            && CompleteBinding(t, Untangled(Letters()))
  {
    var p := Letters();
    var t := Tangle(p);
    LettersDiffer();
    LettersSorted();
    TangleIsProper(p);
    UntangledIsComplete(p);
    assert t[0].source.name == p.a && t[3].source.name == p.b && t[4].source.name == p.c;
    assert t[5].source.name == p.y && t[6].source.name == p.z;
    TanglePass(p, t, Sources(t));
  }
}
