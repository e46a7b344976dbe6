/** The merged checkpoint as its reader finds it: every value is looked up in the output. */
module AggregateResult {
  import opened Basics
  import opened Aggregator
  import opened AggregateRun

  function Sum(s: seq<nat>): nat {
    if s == [] then 0 else s[0] + Sum(s[1..])
  }

  lemma {:induction false} SumMore(s: seq<nat>, x: nat)
    ensures Sum(s + [x]) == Sum(s) + x
  {
    if s == [] {
      assert [x][1..] == [] && s + [x] == [x];
    } else {
      SumMore(s[1..], x);
      assert (s + [x])[1..] == s[1..] + [x];
    }
  }

  lemma {:induction false} PagesAreSum(pages: seq<nat>, i: nat)
    requires i <= |pages|
    ensures PagesBefore(pages, i) == Sum(pages[..i])
  {
    if i > 0 {
      PagesAreSum(pages, i - 1);
      SumMore(pages[..i - 1], pages[i - 1]);
      assert pages[..i] == pages[..i - 1] + [pages[i - 1]];
    }
  }

  // ---------- Finding sections ----------

  lemma {:induction false} FindSkips(a: seq<Section>, b: seq<Section>, name: Title)
    requires name !in Names(a)
    ensures Find(a + b, name) == Find(b, name)
  {
    if a == [] {
      assert a + b == b;
    } else {
      assert Names(a)[0] == a[0].name;
      NotInRest(a, name);
      FindSkips(a[1..], b, name);
      assert (a + b)[1..] == a[1..] + b;
    }
  }

  lemma NotInRest(a: seq<Section>, name: Title)
    requires a != [] && name !in Names(a)
    ensures name !in Names(a[1..])
  {
    forall k | 0 <= k < |a| - 1 ensures Names(a[1..])[k] != name {
      assert Names(a)[k + 1] == a[k + 1].name;
    }
  }

  lemma {:induction false} FindUnique(sections: seq<Section>, sec: Section)
    requires Distinct(Names(sections)) && sec in sections
    ensures Find(sections, sec.name) == Some(sec)
  {
    var first, rest := sections[0], sections[1..];
    if first != sec {
      var k :| 0 < k < |sections| && sections[k] == sec;
      assert Names(sections)[0] == first.name && Names(sections)[k] == sec.name;
      assert rest[k - 1] == sec && Names(rest) == Names(sections)[1..];
      FindUnique(rest, sec);
    }
  }

  /** All inputs have the names of sections that a checkpoint can have. */
  ghost predicate AllWellNamed(cpts: seq<Checkpoint>) {
    forall i | 0 <= i < |cpts| :: WellNamed(cpts[i])
  }

  lemma ConfigDistinct(cpts: seq<Checkpoint>, counts: seq<nat>, pages: nat)
    requires cpts != [] && |counts| == |cpts| && AllWellNamed(cpts)
    ensures Distinct(Names(Config(cpts, counts, pages)))
  {
    TitlesApart(cpts, counts, pages);
  }

  lemma OutputConfig(out: Output, pages: nat, cpts: seq<Checkpoint>, memorySize: int)
    requires cpts != [] && IsOutput(out, pages, cpts, memorySize)
    ensures out.config == Config(cpts, PagesOf(cpts), pages)
  {
  }

  // ---------- The closing sections ----------

  predicate NoneClosing(sections: seq<Section>) {
    System !in Names(sections) && Globals !in Names(sections)
  }

  lemma NoneClosingSized(sections: seq<Section>, pages: nat)
    requires NoneClosing(sections)
    ensures NoneClosing(WithSize(sections, pages))
  {
    SetInNames(sections, Store0, RangeSize, Number(PAGE * pages));
  }

  lemma FindBehind(a: seq<Section>, b: seq<Section>, closing: seq<Section>, name: Title)
    requires name !in Names(a) && name !in Names(b)
    ensures Find(a + b + closing, name) == Find(closing, name)
  {
    FindSkips(b, closing, name);
    FindSkips(a, b + closing, name);
    assert a + b + closing == a + (b + closing);
  }

  lemma ClosingValues(c: seq<Section>, pagePtr: nat, n: nat, tick: nat)
    requires c == Closing(pagePtr, n, tick)
    ensures Find(c, System).Some? && Find(c, Globals).Some?
    ensures Lookup(Find(c, System).value.items, PagePtr) == Some(Number(pagePtr))
    ensures Lookup(Find(c, System).value.items, NextPid) == Some(Number(n))
    ensures Lookup(Find(c, Globals).value.items, CurTick) == Some(Number(tick))
  {
    var items := c[0].items;
    assert items[1..][0].key == NextPid;
    assert Lookup(items, NextPid) == Lookup(items[1..], NextPid);
    assert c[1..][0].name == Globals;
    assert Find(c, Globals) == Find(c[1..], Globals);
  }

  /** Section `k` of checkpoint `i` records tick `u`. */
  predicate Records(cpts: seq<Checkpoint>, i: nat, k: nat, u: nat) {
    && i < |cpts| && k < |cpts[i].sections| && cpts[i].sections[k].name == Globals
    && Lookup(cpts[i].sections[k].items, CurTick) == Some(Number(u))
  }

  /** No input is later, and some input is as late, or the tick is 0. */
  ghost predicate IsLatest(cpts: seq<Checkpoint>, t: nat) {
    && (forall i: nat, k: nat, u: nat | Records(cpts, i, k, u) :: u <= t)
    && (t == 0 || exists i: nat, k: nat :: Records(cpts, i, k, t))
  }

  lemma LatestIs(cpts: seq<Checkpoint>)
    ensures IsLatest(cpts, LatestOf(cpts, |cpts|))
  {
    var t := LatestOf(cpts, |cpts|);
    LatestOfAll(cpts, |cpts|);
    forall i: nat, k: nat, u: nat | Records(cpts, i, k, u) ensures u <= t {
      assert TicksAt(cpts[i].sections, k, u);
    }
    if t != 0 {
      var i, k :| 0 <= i < |cpts| && 0 <= k < |cpts[i].sections| && TicksAt(cpts[i].sections, k, t);
      assert Records(cpts, i, k, t);
    }
  }

  lemma NoneInParts(cpts: seq<Checkpoint>, counts: seq<nat>)
    requires cpts != [] && |counts| == |cpts| && AllWellNamed(cpts)
    ensures NoneClosing(Parts(cpts, counts, |cpts| - 1))
  {
    PartsNames(cpts, counts, |cpts| - 1);
    var names := Names(Parts(cpts, counts, |cpts| - 1));
    if System in names {
      NotClosingPart(cpts, System);
    }
    if Globals in names {
      NotClosingPart(cpts, Globals);
    }
  }

  lemma NoneInLast(cpts: seq<Checkpoint>, counts: seq<nat>)
    requires cpts != [] && |counts| == |cpts| && AllWellNamed(cpts)
    ensures NoneClosing(Part(cpts, counts, |cpts| - 1))
  {
    var n := |cpts|;
    MergedNames(cpts[n - 1].sections, n - 1, n, PagesBefore(counts, n - 1));
    var names := Names(Part(cpts, counts, n - 1));
    if System in names {
      NotClosingPart(cpts, System);
    }
    if Globals in names {
      NotClosingPart(cpts, Globals);
    }
  }

  /** The merged checkpoint, read as the merge reads its inputs. */
  function Reread(out: Output): Checkpoint {
    Checkpoint(out.config, out.store)
  }

  lemma TotalsRead(out: Output, a: seq<Section>, b: seq<Section>, pagePtr: nat, n: nat, tick: nat)
    requires out.config == a + b + Closing(pagePtr, n, tick) && NoneClosing(a) && NoneClosing(b)
    ensures GetNumber(Reread(out), System, PagePtr) == Some(pagePtr)
    ensures GetNumber(Reread(out), System, NextPid) == Some(n)
    ensures GetNumber(Reread(out), Globals, CurTick) == Some(tick)
  {
    FindBehind(a, b, Closing(pagePtr, n, tick), System);
    FindBehind(a, b, Closing(pagePtr, n, tick), Globals);
    ClosingValues(Closing(pagePtr, n, tick), pagePtr, n, tick);
  }

  lemma SumOfAll(counts: seq<nat>)
    ensures PagesBefore(counts, |counts|) == Sum(counts)
  {
    PagesAreSum(counts, |counts|);
    assert counts[..|counts|] == counts;
  }

  function Sized(cpts: seq<Checkpoint>, counts: seq<nat>, pages: nat): seq<Section>
    requires cpts != [] && |counts| == |cpts|
  {
    WithSize(Part(cpts, counts, |cpts| - 1), pages)
  }

  lemma NoneInSized(cpts: seq<Checkpoint>, counts: seq<nat>, pages: nat)
    requires cpts != [] && |counts| == |cpts| && AllWellNamed(cpts)
    ensures NoneClosing(Sized(cpts, counts, pages))
  {
    NoneInLast(cpts, counts);
    NoneClosingSized(Part(cpts, counts, |cpts| - 1), pages);
  }

  lemma TotalsInConfig(cpts: seq<Checkpoint>, counts: seq<nat>, out: Output, pages: nat)
    requires cpts != [] && |counts| == |cpts| && AllWellNamed(cpts) && out.config == Config(cpts, counts, pages)
    ensures GetNumber(Reread(out), System, PagePtr) == Some(Sum(counts))
    ensures GetNumber(Reread(out), System, NextPid) == Some(|cpts|)
    ensures GetNumber(Reread(out), Globals, CurTick) == Some(LatestOf(cpts, |cpts|))
  {
    NoneInParts(cpts, counts);
    NoneInSized(cpts, counts, pages);
    SumOfAll(counts);
    TotalsRead(out, Parts(cpts, counts, |cpts| - 1), Sized(cpts, counts, pages), Sum(counts), |cpts|, LatestOf(cpts, |cpts|));
  }

  /** The page count in each checkpoint. */
  ghost predicate AreCounts(cpts: seq<Checkpoint>, counts: seq<nat>) {
    |counts| == |cpts| && forall i | 0 <= i < |cpts| :: GetNumber(cpts[i], System, PagePtr) == Some(counts[i])
  }

  /** A merge needs, and uses, the page count in each checkpoint. */
  lemma {:induction false} CountsAre(cpts: seq<Checkpoint>, n: nat)
    requires n <= |cpts| && UsableTo(cpts, n)
    ensures AreCounts(cpts[..n], PagesOf(cpts)[..n])
  {
    if n > 0 {
      CountsAre(cpts, n - 1);
      var part, counts := cpts[..n], PagesOf(cpts)[..n];
      forall i | 0 <= i < n ensures GetNumber(part[i], System, PagePtr) == Some(counts[i]) {
        if i < n - 1 {
          assert part[i] == cpts[..n - 1][i] && counts[i] == PagesOf(cpts)[..n - 1][i];
        } else {
          assert Usable(cpts[i]);
        }
      }
    }
  }

  lemma CountsOfMerge(cpts: seq<Checkpoint>, counts: seq<nat>)
    requires Mergeable(cpts) && AreCounts(cpts, counts)
    ensures counts == PagesOf(cpts)
  {
    CountsAre(cpts, |cpts|);
    assert cpts[..|cpts|] == cpts && PagesOf(cpts)[..|cpts|] == PagesOf(cpts);
    forall i | 0 <= i < |cpts| ensures counts[i] == PagesOf(cpts)[i] {
      assert GetNumber(cpts[i], System, PagePtr) == Some(counts[i]);
    }
  }

  /** Main result: the output has the page counts of all checkpoints together, as many processes
      as checkpoints, and the latest of their ticks. */
  lemma TotalsOfAll(cpts: seq<Checkpoint>, counts: seq<nat>, memorySize: int, out: Output, pages: nat)
    requires Mergeable(cpts) && IsOutput(out, pages, cpts, memorySize) && AllWellNamed(cpts) && AreCounts(cpts, counts)
    ensures GetNumber(Reread(out), System, PagePtr) == Some(Sum(counts))
    ensures GetNumber(Reread(out), System, NextPid) == Some(|cpts|)
    ensures GetNumber(Reread(out), Globals, CurTick).Some? && IsLatest(cpts, GetNumber(Reread(out), Globals, CurTick).value)
  {
    OutputConfig(out, pages, cpts, memorySize);
    CountsOfMerge(cpts, counts);
    TotalsInConfig(cpts, counts, out, pages);
    LatestIs(cpts);
  }

  // ---------- The sections taken from the inputs ----------

  lemma {:induction false} KeptInMerged(sections: seq<Section>, n: nat, base: nat, k: nat)
    requires n > 0 && k < |sections| && Kept(sections[k])
    ensures sections[k] in Merged(sections, n - 1, n, base)
  {
    var front := sections[..|sections| - 1];
    if k < |front| {
      KeptInMerged(front, n, base, k);
      assert sections[k] == front[k];
    }
  }

  lemma LastInConfig(cpts: seq<Checkpoint>, counts: seq<nat>, pages: nat, sec: Section)
    requires cpts != [] && |counts| == |cpts| && sec in WithSize(Part(cpts, counts, |cpts| - 1), pages)
    ensures sec in Config(cpts, counts, pages)
  {
    var n := |cpts|;
    var parts, last := Parts(cpts, counts, n - 1), WithSize(Part(cpts, counts, n - 1), pages);
    InConcat(parts, last, sec);
    InConcat(parts + last, Closing(PagesBefore(counts, n), n, LatestOf(cpts, n)), sec);
  }

  /** The size is set and every other item stays. */
  ghost predicate SizeSet(items: seq<Item>, sized: seq<Item>, size: nat) {
    forall key :: Lookup(sized, key) == if key == RangeSize then Some(Number(size)) else Lookup(items, key)
  }

  lemma {:induction false} SizedIn(sections: seq<Section>, sec: Section, size: nat) returns (sized: Section)
    requires Distinct(Names(sections)) && sec in sections && sec.name == Store0
    ensures sized in SetIn(sections, Store0, RangeSize, Number(size)) && sized.name == Store0
    ensures SizeSet(sec.items, sized.items, size)
  {
    var first, rest := sections[0], sections[1..];
    if first.name == Store0 {
      FindUnique(sections, sec);
      sized := Section(Store0, Set(sec.items, RangeSize, Number(size)));
      forall key ensures Lookup(sized.items, key) == if key == RangeSize then Some(Number(size)) else Lookup(sec.items, key) {
        LookupSet(sec.items, RangeSize, Number(size), key);
      }
      assert SetIn(sections, Store0, RangeSize, Number(size))[0] == sized;
    } else {
      assert Names(rest) == Names(sections)[1..];
      sized := SizedIn(rest, sec, size);
      InConcat([first], SetIn(rest, Store0, RangeSize, Number(size)), sized);
    }
  }

  lemma KeptThere(cpts: seq<Checkpoint>, counts: seq<nat>, pages: nat, k: nat)
    requires cpts != [] && |counts| == |cpts|
    requires k < |cpts[|cpts| - 1].sections| && Kept(cpts[|cpts| - 1].sections[k])
    requires cpts[|cpts| - 1].sections[k].name != Store0
    ensures cpts[|cpts| - 1].sections[k] in Config(cpts, counts, pages)
  {
    var n := |cpts|;
    KeptInMerged(cpts[n - 1].sections, n, PagesBefore(counts, n - 1), k);
    ConfigHas(cpts, counts, pages, n - 1, cpts[n - 1].sections[k]);
  }

  lemma StoreSized(sections: seq<Section>, n: nat, base: nat, k: nat, size: nat) returns (sized: Section)
    requires n > 0 && Distinct(Names(sections)) && Originals(sections) && k < |sections| && sections[k].name == Store0
    ensures sized in SetIn(Merged(sections, n - 1, n, base), Store0, RangeSize, Number(size)) && sized.name == Store0
    ensures SizeSet(sections[k].items, sized.items, size)
  {
    var merged := Merged(sections, n - 1, n, base);
    assert sections[k] in merged by { KeptInMerged(sections, n, base, k); }
    assert Distinct(Names(merged)) by { MergedNames(sections, n - 1, n, base); }
    sized := SizedIn(merged, sections[k], size);
  }

  lemma StoreThere(cpts: seq<Checkpoint>, counts: seq<nat>, pages: nat, k: nat) returns (sized: Section)
    requires cpts != [] && |counts| == |cpts| && WellNamed(cpts[|cpts| - 1])
    requires k < |cpts[|cpts| - 1].sections| && cpts[|cpts| - 1].sections[k].name == Store0
    ensures sized in Config(cpts, counts, pages) && sized.name == Store0
    ensures SizeSet(cpts[|cpts| - 1].sections[k].items, sized.items, PAGE * pages)
  {
    var n := |cpts|;
    sized := StoreSized(cpts[n - 1].sections, n, PagesBefore(counts, n - 1), k, PAGE * pages);
    LastInConfig(cpts, counts, pages, sized);
  }

  lemma KeptInConfig(cpts: seq<Checkpoint>, counts: seq<nat>, config: seq<Section>, pages: nat, k: nat)
    requires cpts != [] && |counts| == |cpts| && config == Config(cpts, counts, pages) && AllWellNamed(cpts)
    requires k < |cpts[|cpts| - 1].sections| && Kept(cpts[|cpts| - 1].sections[k])
    ensures var sec := cpts[|cpts| - 1].sections[k];
            && (sec.name != Store0 ==> Find(config, sec.name) == Some(sec))
            && (sec.name == Store0 ==>
                  Find(config, Store0).Some? && SizeSet(sec.items, Find(config, Store0).value.items, PAGE * pages))
  {
    var sec := cpts[|cpts| - 1].sections[k];
    ConfigDistinct(cpts, counts, pages);
    if sec.name != Store0 {
      KeptThere(cpts, counts, pages, k);
      FindUnique(config, sec);
    } else {
      var sized := StoreThere(cpts, counts, pages, k);
      FindUnique(config, sized);
    }
  }

  /** A section of the last checkpoint that is neither a CPU's nor one of the closing ones is
      found unchanged; that of the store has its size set. */
  lemma KeptUnchanged(cpts: seq<Checkpoint>, memorySize: int, out: Output, pages: nat, k: nat)
    requires Mergeable(cpts) && IsOutput(out, pages, cpts, memorySize) && AllWellNamed(cpts)
    requires var last := cpts[|cpts| - 1].sections;
             k < |last| && !last[k].name.Cpu? && last[k].name != System && last[k].name != Globals
    ensures var sec := cpts[|cpts| - 1].sections[k];
            && (sec.name != Store0 ==> Find(out.config, sec.name) == Some(sec))
            && (sec.name == Store0 ==>
                  Find(out.config, Store0).Some? && SizeSet(sec.items, Find(out.config, Store0).value.items, PAGE * pages))
  {
    OutputConfig(out, pages, cpts, memorySize);
    KeptInConfig(cpts, PagesOf(cpts), out.config, pages, k);
  }

  /** What the section of a CPU becomes in the merge: addresses are moved, the map of open files
      belongs to the process of its checkpoint, and everything else stays. */
  ghost predicate MovedItems(items: seq<Item>, moved: seq<Item>, offset: nat, fdMap: bool, pid: nat) {
    forall key ::
      Lookup(moved, key) ==
      if key == Pid && fdMap then Some(Number(pid))
      else match Lookup(items, key)
           case Some(Number(a)) => Some(Number(if key == Paddr then a + offset else a))
           case other => other
  }

  ghost predicate IsFdMapText(s: string) {
    exists before, c: char :: s == before + "workload" + [c] + "FdMap256"
  }

  lemma FdMapExactly(s: string)
    ensures EndsInFdMap(s) <==> IsFdMapText(s)
  {
    var n := |s|;
    if EndsInFdMap(s) {
      assert s == s[..n - 17] + "workload" + [s[n - 9]] + "FdMap256";
    }
    if before: string, c: char :| s == before + "workload" + [c] + "FdMap256" {
      assert n == |before| + 17;
      assert s[n - 17..n - 9] == "workload" && s[n - 8..] == "FdMap256";
    }
  }

  lemma MovedByRule(sec: Section, i: nat, base: nat)
    requires sec.name.Cpu?
    ensures MovedItems(sec.items, MoveSection(sec, i, base).items, PAGE * base, EndsInFdMap(sec.name.text), i)
  {
    forall key
      ensures Lookup(MoveSection(sec, i, base).items, key) ==
              if key == Pid && EndsInFdMap(sec.name.text) then Some(Number(i))
              else match Lookup(sec.items, key)
                   case Some(Number(a)) => Some(Number(if key == Paddr then a + PAGE * base else a))
                   case other => other
    {
      LookupMoved(sec.items, base, key);
      LookupSet(MoveAll(sec.items, base), Pid, Number(i), key);
    }
  }

  lemma CpuInConfig(cpts: seq<Checkpoint>, counts: seq<nat>, config: seq<Section>, pages: nat, i: nat, k: nat)
    requires |counts| == |cpts| && AllWellNamed(cpts)
    requires i < |cpts| && k < |cpts[i].sections| && cpts[i].sections[k].name.Cpu? && config == Config(cpts, counts, pages)
    ensures var sec := cpts[i].sections[k];
            && Find(config, Renamed(sec.name.text, i)).Some?
            && MovedItems(sec.items, Find(config, Renamed(sec.name.text, i)).value.items,
                          PAGE * Sum(counts[..i]), EndsInFdMap(sec.name.text), i)
  {
    var sec, base := cpts[i].sections[k], PagesBefore(counts, i);
    ConfigDistinct(cpts, counts, pages);
    MovedThere(cpts, counts, pages, i, k);
    FindUnique(config, MoveSection(sec, i, base));
    MovedByRule(sec, i, base);
    PagesAreSum(counts, i);
  }

  /** Main result: the section of a CPU of any checkpoint is found under its new name, with its
      addresses moved by the pages of the checkpoints before it. */
  lemma CpuSections(cpts: seq<Checkpoint>, counts: seq<nat>, memorySize: int, out: Output, pages: nat, i: nat, k: nat)
    requires Mergeable(cpts) && IsOutput(out, pages, cpts, memorySize) && AllWellNamed(cpts) && AreCounts(cpts, counts)
    requires i < |cpts| && k < |cpts[i].sections| && cpts[i].sections[k].name.Cpu?
    ensures var sec := cpts[i].sections[k];
            && Find(out.config, Renamed(sec.name.text, i)).Some?
            && MovedItems(sec.items, Find(out.config, Renamed(sec.name.text, i)).value.items,
                          PAGE * Sum(counts[..i]), IsFdMapText(sec.name.text), i)
  {
    OutputConfig(out, pages, cpts, memorySize);
    CountsOfMerge(cpts, counts);
    CpuInConfig(cpts, counts, out.config, pages, i, k);
    FdMapExactly(cpts[i].sections[k].name.text);
  }
}
