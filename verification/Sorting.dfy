/** Stable sorting by an integer key, and what determines its result. */
module Sorting {

  /** Places `x` after every element whose key does not exceed its own. */
  function InsertBy<T>(key: T -> int, s: seq<T>, x: T): (r: seq<T>)
    ensures |r| == |s| + 1
  {
    if s == [] || key(s[|s| - 1]) <= key(x) then s + [x]
    else InsertBy(key, s[..|s| - 1], x) + [s[|s| - 1]]
  }

  function SortBy<T>(key: T -> int, s: seq<T>): (r: seq<T>)
    ensures |r| == |s|
  {
    if s == [] then [] else InsertBy(key, SortBy(key, s[..|s| - 1]), s[|s| - 1])
  }

  predicate Ordered<T>(key: T -> int, s: seq<T>) {
    forall i, j | 0 <= i < j < |s| :: key(s[i]) <= key(s[j])
  }

  ghost predicate AllAtMost<T>(key: T -> int, s: seq<T>, bound: int) {
    forall x | x in s :: key(x) <= bound
  }

  /** The elements with key `v`, in the order in which they occur. */
  function WithKey<T>(key: T -> int, s: seq<T>, v: int): (r: seq<T>) {
    if s == [] then []
    else WithKey(key, s[..|s| - 1], v) + (if key(s[|s| - 1]) == v then [s[|s| - 1]] else [])
  }

  // ---------- Insertion ----------

  lemma InsertElements<T>(key: T -> int, s: seq<T>, x: T)
    ensures multiset(InsertBy(key, s, x)) == multiset(s) + multiset{x}
  {
    if s != [] && key(s[|s| - 1]) > key(x) {
      InsertElements(key, s[..|s| - 1], x);
      assert s == s[..|s| - 1] + [s[|s| - 1]];
    }
  }

  lemma InsertOrdered<T>(key: T -> int, s: seq<T>, x: T)
    requires Ordered(key, s)
    ensures Ordered(key, InsertBy(key, s, x))
    ensures forall y | y in InsertBy(key, s, x) :: y in s || y == x
  {
    if s != [] && key(s[|s| - 1]) > key(x) {
      var init, last := s[..|s| - 1], s[|s| - 1];
      InsertOrdered(key, init, x);
      forall i | 0 <= i < |s| ensures key(InsertBy(key, init, x)[i]) <= key(last) {
        assert InsertBy(key, init, x)[i] in InsertBy(key, init, x);
      }
    }
  }

  lemma InsertStable<T>(key: T -> int, s: seq<T>, x: T, v: int)
    requires Ordered(key, s)
    ensures WithKey(key, InsertBy(key, s, x), v) == WithKey(key, s, v) + (if key(x) == v then [x] else [])
  {
  }

  /** An element above a whole prefix is inserted behind it. */
  lemma InsertBehind<T>(key: T -> int, a: seq<T>, b: seq<T>, x: T)
    requires AllAtMost(key, a, key(x))
    ensures InsertBy(key, a + b, x) == a + InsertBy(key, b, x)
  {
    var s := a + b;
    if b == [] {
      assert s == a;
      assert s != [] ==> s[|s| - 1] in a;
    } else if key(b[|b| - 1]) > key(x) {
      InsertBehind(key, a, b[..|b| - 1], x);
      assert s[..|s| - 1] == a + b[..|b| - 1];
    }
  }

  // ---------- Sorting ----------

  lemma SortElements<T>(key: T -> int, s: seq<T>)
    ensures multiset(SortBy(key, s)) == multiset(s)
  {
    if s != [] {
      SortElements(key, s[..|s| - 1]);
      InsertElements(key, SortBy(key, s[..|s| - 1]), s[|s| - 1]);
      assert s == s[..|s| - 1] + [s[|s| - 1]];
    }
  }

  lemma SortOrdered<T>(key: T -> int, s: seq<T>)
    ensures Ordered(key, SortBy(key, s))
  {
    if s != [] {
      SortOrdered(key, s[..|s| - 1]);
      InsertOrdered(key, SortBy(key, s[..|s| - 1]), s[|s| - 1]);
    }
  }

  lemma SortStable<T>(key: T -> int, s: seq<T>, v: int)
    ensures WithKey(key, SortBy(key, s), v) == WithKey(key, s, v)
  {
    if s != [] {
      SortStable(key, s[..|s| - 1], v);
      SortOrdered(key, s[..|s| - 1]);
      InsertStable(key, SortBy(key, s[..|s| - 1]), s[|s| - 1], v);
    }
  }

  lemma SortIdempotent<T>(key: T -> int, s: seq<T>)
    requires Ordered(key, s)
    ensures SortBy(key, s) == s
  {
  }

  lemma {:induction false} WithKeyMembers<T>(key: T -> int, s: seq<T>, x: T)
    ensures x in WithKey(key, s, key(x)) <==> x in s
  {
    if s != [] {
      var front, last := s[..|s| - 1], s[|s| - 1];
      WithKeyMembers(key, front, x);
      assert s == front + [last];
    }
  }

  ghost predicate SameByKey<T>(key: T -> int, a: seq<T>, b: seq<T>) {
    forall v :: WithKey(key, a, v) == WithKey(key, b, v)
  }

  lemma SameMembers<T>(key: T -> int, a: seq<T>, b: seq<T>, x: T)
    requires SameByKey(key, a, b)
    ensures x in a <==> x in b
  {
    WithKeyMembers(key, a, x);
    WithKeyMembers(key, b, x);
  }

  lemma SameLast<T>(key: T -> int, a: seq<T>, b: seq<T>)
    requires Ordered(key, a) && Ordered(key, b) && SameByKey(key, a, b) && a != [] && b != []
    ensures a[|a| - 1] == b[|b| - 1]
  {
    var x, y := a[|a| - 1], b[|b| - 1];
    SameMembers(key, a, b, x);
    SameMembers(key, a, b, y);
    assert key(x) == key(y);
    var wa, wb := WithKey(key, a, key(x)), WithKey(key, b, key(x));
    assert wa[|wa| - 1] == x && wb[|wb| - 1] == y;
  }

  lemma SameInit<T>(key: T -> int, a: seq<T>, b: seq<T>, v: int)
    requires SameByKey(key, a, b) && a != [] && b != [] && a[|a| - 1] == b[|b| - 1]
    ensures WithKey(key, a[..|a| - 1], v) == WithKey(key, b[..|b| - 1], v)
  {
    var wa, wb := WithKey(key, a, v), WithKey(key, b, v);
    if key(a[|a| - 1]) == v {
      assert WithKey(key, a[..|a| - 1], v) == wa[..|wa| - 1];
      assert WithKey(key, b[..|b| - 1], v) == wb[..|wb| - 1];
    } else {
      assert WithKey(key, a[..|a| - 1], v) == wa;
      assert WithKey(key, b[..|b| - 1], v) == wb;
    }
  }

  /** Order and stability leave one possible result: the sort is determined by them. */
  lemma SortUnique<T>(key: T -> int, a: seq<T>, b: seq<T>)
    requires Ordered(key, a) && Ordered(key, b) && SameByKey(key, a, b)
    ensures a == b
  {
    if a == [] {
      if b != [] {
        SameMembers(key, a, b, b[0]);
      }
    } else if b == [] {
      SameMembers(key, a, b, a[0]);
    } else {
      SameLast(key, a, b);
      var a', b' := a[..|a| - 1], b[..|b| - 1];
      forall v ensures WithKey(key, a', v) == WithKey(key, b', v) {
        SameInit(key, a, b, v);
      }
      SortUnique(key, a', b');
      assert a == a' + [a[|a| - 1]] && b == b' + [b[|b| - 1]];
    }
  }

  /** The stable sort is the only ordered sequence with the same elements of each key in
      the same order. */
  lemma SortIsTheStableSort<T>(key: T -> int, s: seq<T>, r: seq<T>)
    ensures r == SortBy(key, s) <==> Ordered(key, r) && SameByKey(key, r, s)
  {
    SortOrdered(key, s);
    forall v ensures WithKey(key, SortBy(key, s), v) == WithKey(key, s, v) {
      SortStable(key, s, v);
    }
    if Ordered(key, r) && SameByKey(key, r, s) {
      SortUnique(key, r, SortBy(key, s));
    }
  }
}
