/** The whole merge: every checkpoint in turn, then the padding and the closing sections. */
module AggregateRun {
  import opened Basics
  import opened Aggregator

  datatype Output = Output(config: seq<Section>, store: seq<Byte>)

  function PageCount(c: Checkpoint): Option<nat> {
    GetNumber(c, System, PagePtr)
  }

  /** The page counts; a checkpoint without one stops the merge. */
  function PagesIn(c: Checkpoint): nat {
    match PageCount(c)
    case Some(n) => n
    case None => 0
  }

  function PagesOf(cpts: seq<Checkpoint>): (r: seq<nat>)
    ensures |r| == |cpts| && forall i | 0 <= i < |r| :: r[i] == PagesIn(cpts[i])
  {
    seq(|cpts|, i requires 0 <= i < |cpts| => PagesIn(cpts[i]))
  }

  predicate Usable(c: Checkpoint) {
    PageCount(c).Some? && Readable(c.sections)
  }

  predicate UsableTo(cpts: seq<Checkpoint>, i: nat)
    requires i <= |cpts|
  {
    i == 0 || (UsableTo(cpts, i - 1) && Usable(cpts[i - 1]))
  }

  lemma UsableBefore(cpts: seq<Checkpoint>, i: nat, n: nat)
    requires i <= n <= |cpts| && !UsableTo(cpts, i)
    ensures !UsableTo(cpts, n)
  {
  }

  /** The inputs on which no exception is raised. */
  predicate Mergeable(cpts: seq<Checkpoint>) {
    cpts != [] && UsableTo(cpts, |cpts|) && Store0 in Names(cpts[|cpts| - 1].sections)
  }

  /** What the checkpoint at `i` adds to the configuration. */
  function Part(cpts: seq<Checkpoint>, pages: seq<nat>, i: nat): seq<Section>
    requires i < |cpts| == |pages|
  {
    Merged(cpts[i].sections, i, |cpts|, PagesBefore(pages, i))
  }

  function Parts(cpts: seq<Checkpoint>, pages: seq<nat>, i: nat): seq<Section>
    requires i <= |cpts| == |pages|
  {
    if i == 0 then [] else Parts(cpts, pages, i - 1) + Part(cpts, pages, i - 1)
  }

  function LatestOf(cpts: seq<Checkpoint>, i: nat): nat
    requires i <= |cpts|
  {
    if i == 0 then 0 else Latest(cpts[i - 1].sections, LatestOf(cpts, i - 1))
  }

  /** Sets one item of the section with the given name. */
  function SetIn(sections: seq<Section>, name: Title, key: Key, value: Value): (r: seq<Section>)
    ensures |r| == |sections|
  {
    if sections == [] then []
    else if sections[0].name == name then [Section(name, Set(sections[0].items, key, value))] + sections[1..]
    else [sections[0]] + SetIn(sections[1..], name, key, value)
  }

  lemma NamesCons(first: Section, rest: seq<Section>)
    ensures Names([first] + rest) == [first.name] + Names(rest)
  {
  }

  lemma {:induction false} SetInNames(sections: seq<Section>, name: Title, key: Key, value: Value)
    ensures Names(SetIn(sections, name, key, value)) == Names(sections)
  {
    if sections != [] {
      var first, rest := sections[0], sections[1..];
      assert sections == [first] + rest;
      NamesCons(first, rest);
      NamesCons(Section(name, Set(first.items, key, value)), rest);
      NamesCons(first, SetIn(rest, name, key, value));
      SetInNames(rest, name, key, value);
    }
  }

  function WithSize(sections: seq<Section>, pages: nat): seq<Section> {
    SetIn(sections, Store0, RangeSize, Number(PAGE * pages))
  }

  /** The sections written last. */
  function Closing(pagePtr: nat, n: nat, tick: nat): seq<Section> {
    [Section(System, [Item(PagePtr, Number(pagePtr)), Item(NextPid, Number(n))]),
     Section(Globals, [Item(CurTick, Number(tick))])]
  }

  /** The merged configuration when the store counts `pages` pages. */
  function Config(cpts: seq<Checkpoint>, counts: seq<nat>, pages: nat): seq<Section>
    requires cpts != [] && |counts| == |cpts|
  {
    var n := |cpts|;
    Parts(cpts, counts, n - 1) + WithSize(Part(cpts, counts, n - 1), pages)
    + Closing(PagesBefore(counts, n), n, LatestOf(cpts, n))
  }

  /** The fewest pages, from the pages of all the checkpoints on, that reach the wanted size. */
  predicate Enough(counted: nat, pages: nat, memorySize: int) {
    && PAGE * pages >= memorySize && pages >= counted
    && (pages > counted ==> PAGE * (pages - 1) < memorySize)
  }

  predicate Zeroes(store: seq<Byte>, start: nat) {
    forall k | start <= k < |store| :: store[k] == 48
  }

  /** What the output is. */
  predicate IsOutput(out: Output, pages: nat, cpts: seq<Checkpoint>, memorySize: int)
    requires cpts != []
  {
    var counts := PagesOf(cpts);
    var counted, store := PagesBefore(counts, |cpts|), Store(cpts, counts, |cpts|);
    && Enough(counted, pages, memorySize)
    && out.config == Config(cpts, counts, pages)
    && store <= out.store && Zeroes(out.store, |store|)
    && |out.store| - |store| == PAGE * (pages - counted)
  }

  /** The variables of the loop over the checkpoints. */
  datatype Progress = Progress(earlier: seq<Section>, held: seq<Section>, store: seq<Byte>, pagePtr: nat, tick: nat)

  function Advance(c: Checkpoint, i: nat, n: nat, p: Progress, pages: nat): Progress
    requires i < n
  {
    var merged := Merged(c.sections, i, n, p.pagePtr);
    Progress(if i != n - 1 then p.earlier + merged else p.earlier, merged, p.store + PagesTaken(c.image, pages),
             p.pagePtr + pages, Latest(c.sections, p.tick))
  }

  /** The variables after `i` checkpoints. */
  function After(cpts: seq<Checkpoint>, pages: seq<nat>, i: nat): Progress
    requires i <= |cpts| == |pages|
  {
    if i == 0 then Progress([], [], [], 0, 0)
    else Advance(cpts[i - 1], i - 1, |cpts|, After(cpts, pages, i - 1), pages[i - 1])
  }

  lemma {:induction false} AfterMemory(cpts: seq<Checkpoint>, pages: seq<nat>, i: nat)
    requires i <= |cpts| == |pages|
    ensures After(cpts, pages, i).store == Store(cpts, pages, i)
  {
    if i > 0 {
      AfterMemory(cpts, pages, i - 1);
    }
  }

  lemma {:induction false} AfterPages(cpts: seq<Checkpoint>, pages: seq<nat>, i: nat)
    requires i <= |cpts| == |pages|
    ensures After(cpts, pages, i).pagePtr == PagesBefore(pages, i)
  {
    if i > 0 {
      AfterPages(cpts, pages, i - 1);
    }
  }

  lemma {:induction false} AfterTick(cpts: seq<Checkpoint>, pages: seq<nat>, i: nat)
    requires i <= |cpts| == |pages|
    ensures After(cpts, pages, i).tick == LatestOf(cpts, i)
  {
    if i > 0 {
      AfterTick(cpts, pages, i - 1);
    }
  }

  lemma AdvanceHeld(c: Checkpoint, i: nat, n: nat, p: Progress, pages: nat, base: nat)
    requires i < n && p.pagePtr == base
    ensures Advance(c, i, n, p, pages).held == Merged(c.sections, i, n, base)
  {
  }

  lemma AfterHeld(cpts: seq<Checkpoint>, pages: seq<nat>, i: nat)
    requires 0 < i <= |cpts| == |pages|
    ensures After(cpts, pages, i).held == Part(cpts, pages, i - 1)
  {
    AfterPages(cpts, pages, i - 1);
    AdvanceHeld(cpts[i - 1], i - 1, |cpts|, After(cpts, pages, i - 1), pages[i - 1], PagesBefore(pages, i - 1));
  }

  /** The part of the last checkpoint is held back. */
  lemma AfterEarlier(cpts: seq<Checkpoint>, pages: seq<nat>, i: nat)
    requires 0 < i <= |cpts| == |pages|
    ensures var before := After(cpts, pages, i - 1).earlier;
            After(cpts, pages, i).earlier == if i < |cpts| then before + Part(cpts, pages, i - 1) else before
  {
    AfterHeld(cpts, pages, i);
  }

  lemma {:induction false} AfterConfig(cpts: seq<Checkpoint>, pages: seq<nat>, i: nat)
    requires i < |cpts| == |pages|
    ensures After(cpts, pages, i).earlier == Parts(cpts, pages, i)
  {
    if i > 0 {
      var before, part := Parts(cpts, pages, i - 1), Part(cpts, pages, i - 1);
      assert After(cpts, pages, i - 1).earlier == before by { AfterConfig(cpts, pages, i - 1); }
      assert After(cpts, pages, i).earlier == before + part by { AfterEarlier(cpts, pages, i); }
    }
  }

  /** One round of the loop; not `ok` is an exception. */
  method TakeCheckpoint(c: Checkpoint, i: nat, n: nat, p: Progress) returns (ok: bool, q: Progress)
    requires i < n && WellNamed(c)
    ensures ok <==> Usable(c)
    ensures ok ==> q == Advance(c, i, n, p, PagesIn(c))
  {
    var merged, tick := MergeSections(c.sections, i, n, p.pagePtr, p.tick);
    var pages := PageCount(c);
    if merged.None? || pages.None? {
      return false, p;
    }
    var copied := CopyPages(c.image, pages.value);
    var earlier := p.earlier;
    if i != n - 1 {
      earlier := earlier + merged.value;
    }
    return true, Progress(earlier, merged.value, p.store + copied, p.pagePtr + pages.value, tick);
  }

  ghost predicate Good(cpts: seq<Checkpoint>, i: nat, p: Progress)
    requires i <= |cpts|
  {
    UsableTo(cpts, i) && p == After(cpts, PagesOf(cpts), i)
  }

  lemma AfterStep(cpts: seq<Checkpoint>, i: nat)
    requires i < |cpts|
    ensures After(cpts, PagesOf(cpts), i + 1)
         == Advance(cpts[i], i, |cpts|, After(cpts, PagesOf(cpts), i), PagesIn(cpts[i]))
  {
  }

  lemma GoodStep(cpts: seq<Checkpoint>, i: nat, p: Progress)
    requires i < |cpts| && Good(cpts, i, p)
    ensures if Usable(cpts[i]) then Good(cpts, i + 1, Advance(cpts[i], i, |cpts|, p, PagesIn(cpts[i])))
            else !UsableTo(cpts, |cpts|)
  {
    if Usable(cpts[i]) {
      AfterStep(cpts, i);
    } else {
      UsableBefore(cpts, i + 1, |cpts|);
    }
  }

  predicate WellNamed(c: Checkpoint) {
    Distinct(Names(c.sections)) && Originals(c.sections)
  }

  /** One round keeps the loop on track. */
  method Round(cpts: seq<Checkpoint>, i: nat, p: Progress) returns (ok: bool, q: Progress)
    requires i < |cpts| && WellNamed(cpts[i]) && Good(cpts, i, p)
    ensures if ok then Good(cpts, i + 1, q) else !UsableTo(cpts, |cpts|)
  {
    GoodStep(cpts, i, p);
    ok, q := TakeCheckpoint(cpts[i], i, |cpts|, p);
  }

  /** Reads the checkpoints one by one. */
  method Collect(cpts: seq<Checkpoint>) returns (ok: bool, p: Progress)
    requires forall i | 0 <= i < |cpts| :: WellNamed(cpts[i])
    ensures if ok then Good(cpts, |cpts|, p) else !UsableTo(cpts, |cpts|)
  {
    p := Progress([], [], [], 0, 0);
    var i := 0;
    while i < |cpts|
      invariant i <= |cpts| && Good(cpts, i, p)
    {
      ok, p := Round(cpts, i, p);
      if !ok {
        return;
      }
      i := i + 1;
    }
    ok := true;
  }

  ghost predicate Collected(cpts: seq<Checkpoint>, counts: seq<nat>, p: Progress)
    requires cpts != [] && |counts| == |cpts|
  {
    var n := |cpts|;
    && p.pagePtr == PagesBefore(counts, n) && p.store == Store(cpts, counts, n) && p.tick == LatestOf(cpts, n)
    && p.earlier == Parts(cpts, counts, n - 1) && p.held == Part(cpts, counts, n - 1)
  }

  lemma AllCollected(cpts: seq<Checkpoint>, counts: seq<nat>, p: Progress)
    requires cpts != [] && |counts| == |cpts| && p == After(cpts, counts, |cpts|)
    ensures Collected(cpts, counts, p)
  {
    AfterMemory(cpts, counts, |cpts|);
    AfterPages(cpts, counts, |cpts|);
    AfterTick(cpts, counts, |cpts|);
    AfterConfig(cpts, counts, |cpts| - 1);
    AfterEarlier(cpts, counts, |cpts|);
    AfterHeld(cpts, counts, |cpts|);
  }

  lemma IsCollected(cpts: seq<Checkpoint>, p: Progress)
    requires cpts != [] && Good(cpts, |cpts|, p)
    ensures Collected(cpts, PagesOf(cpts), p)
  {
    AllCollected(cpts, PagesOf(cpts), p);
  }

  lemma ResultIsOutput(cpts: seq<Checkpoint>, memorySize: int, p: Progress, padded: seq<Byte>, pages: nat)
    requires cpts != [] && Collected(cpts, PagesOf(cpts), p) && Enough(p.pagePtr, pages, memorySize)
    requires p.store <= padded && Zeroes(padded, |p.store|) && |padded| - |p.store| == PAGE * (pages - p.pagePtr)
    ensures IsOutput(Output(p.earlier + WithSize(p.held, pages) + Closing(p.pagePtr, |cpts|, p.tick), padded),
                     pages, cpts, memorySize)
  {
    ResultConfig(cpts, PagesOf(cpts), p, pages);
  }

  lemma ResultConfig(cpts: seq<Checkpoint>, counts: seq<nat>, p: Progress, pages: nat)
    requires cpts != [] && |counts| == |cpts| && Collected(cpts, counts, p)
    ensures p.earlier + WithSize(p.held, pages) + Closing(p.pagePtr, |cpts|, p.tick) == Config(cpts, counts, pages)
  {
  }

  /** The merge of all the checkpoints. */
  method Aggregate(cpts: seq<Checkpoint>, memorySize: int) returns (r: Option<Output>, pages: nat)
    requires forall i | 0 <= i < |cpts| :: WellNamed(cpts[i])
    ensures r.Some? <==> Mergeable(cpts)
    ensures r.Some? ==> IsOutput(r.value, pages, cpts, memorySize)
  {
    var ok, p := Collect(cpts);
    if !ok || cpts == [] {
      return None, 0;
    }
    var padded;
    padded, pages := Pad(p.store, p.pagePtr, memorySize);
    IsCollected(cpts, p);
    StoreSectionKept(cpts);
    if Store0 !in Names(p.held) {
      return None, pages;
    }
    ResultIsOutput(cpts, memorySize, p, padded, pages);
    r := Some(Output(p.earlier + WithSize(p.held, pages) + Closing(p.pagePtr, |cpts|, p.tick), padded));
  }

  lemma {:induction false} KeptInLast(sections: seq<Section>, n: nat, base: nat, k: nat)
    requires n > 0 && k < |sections| && Kept(sections[k])
    ensures sections[k].name in Names(Merged(sections, n - 1, n, base))
  {
    var front := sections[..|sections| - 1];
    var merged, before := Merged(sections, n - 1, n, base), Merged(front, n - 1, n, base);
    if k < |front| {
      KeptInLast(front, n, base, k);
      var j :| 0 <= j < |before| && Names(before)[j] == sections[k].name;
      assert Names(merged)[j] == sections[k].name;
    } else {
      assert Names(merged)[|before|] == sections[k].name;
    }
  }

  lemma {:induction false} PlainFromLast(sections: seq<Section>, n: nat, base: nat, name: Title)
    requires n > 0 && !name.Renamed? && Distinct(Names(sections)) && Originals(sections)
    requires name in Names(Merged(sections, n - 1, n, base))
    ensures name in Names(sections)
  {
    MergedNames(sections, n - 1, n, base);
    var k :| 0 <= k < |sections| && NamedAfter(name, sections[k], n - 1, n);
    assert Names(sections)[k] == name;
  }

  lemma PlainKept(sections: seq<Section>, n: nat, base: nat, name: Title)
    requires n > 0 && Distinct(Names(sections)) && Originals(sections) && Kept(Section(name, [])) && !name.Renamed?
    ensures name in Names(Merged(sections, n - 1, n, base)) <==> name in Names(sections)
  {
    if k :| 0 <= k < |sections| && Names(sections)[k] == name {
      KeptInLast(sections, n, base, k);
    }
    if name in Names(Merged(sections, n - 1, n, base)) {
      PlainFromLast(sections, n, base, name);
    }
  }

  /** The section of the store survives exactly when the last checkpoint has it. */
  lemma StoreSectionKept(cpts: seq<Checkpoint>)
    requires cpts != [] && WellNamed(cpts[|cpts| - 1])
    ensures Store0 in Names(Part(cpts, PagesOf(cpts), |cpts| - 1)) <==> Store0 in Names(cpts[|cpts| - 1].sections)
  {
    var n := |cpts|;
    PlainKept(cpts[n - 1].sections, n, PagesBefore(PagesOf(cpts), n - 1), Store0);
  }

  // ---------- No name twice ----------

  /** A name written for a checkpoint before `i`. */
  ghost predicate Earlier(cpts: seq<Checkpoint>, i: nat, m: Title)
    requires i < |cpts|
  {
    exists j :: 0 <= j < i && FromSource(m, cpts[j].sections, j, |cpts|)
  }

  lemma NewName(cpts: seq<Checkpoint>, i: nat, m: Title)
    requires i < |cpts| && Earlier(cpts, i, m) && Originals(cpts[i].sections)
    ensures !FromSource(m, cpts[i].sections, i, |cpts|)
  {
  }

  lemma EarlierStays(cpts: seq<Checkpoint>, i: nat, m: Title)
    requires 0 < i < |cpts|
    requires Earlier(cpts, i - 1, m) || FromSource(m, cpts[i - 1].sections, i - 1, |cpts|)
    ensures Earlier(cpts, i, m)
  {
  }

  lemma AllEarlier(cpts: seq<Checkpoint>, i: nat, before: seq<Title>, part: seq<Title>)
    requires 0 < i < |cpts| && forall m | m in before :: Earlier(cpts, i - 1, m)
    requires forall m | m in part :: FromSource(m, cpts[i - 1].sections, i - 1, |cpts|)
    ensures forall m | m in before + part :: Earlier(cpts, i, m)
  {
    forall m | m in before + part ensures Earlier(cpts, i, m) {
      EarlierStays(cpts, i, m);
    }
  }

  lemma PartApart(cpts: seq<Checkpoint>, pages: seq<nat>, i: nat)
    requires i < |cpts| == |pages| && WellNamed(cpts[i])
    requires Distinct(Names(Parts(cpts, pages, i)))
    requires forall m | m in Names(Parts(cpts, pages, i)) :: Earlier(cpts, i, m)
    ensures Distinct(Names(Parts(cpts, pages, i)) + Names(Part(cpts, pages, i)))
    ensures forall m | m in Names(Part(cpts, pages, i)) :: FromSource(m, cpts[i].sections, i, |cpts|)
  {
    MergedNames(cpts[i].sections, i, |cpts|, PagesBefore(pages, i));
    forall m | m in Names(Parts(cpts, pages, i)) ensures m !in Names(Part(cpts, pages, i)) {
      NewName(cpts, i, m);
    }
    ConcatDistinct(Names(Parts(cpts, pages, i)), Names(Part(cpts, pages, i)));
  }

  lemma {:induction false} PartsNames(cpts: seq<Checkpoint>, pages: seq<nat>, i: nat)
    requires i < |cpts| == |pages| && forall j | 0 <= j < |cpts| :: WellNamed(cpts[j])
    ensures Distinct(Names(Parts(cpts, pages, i)))
    ensures forall m | m in Names(Parts(cpts, pages, i)) :: Earlier(cpts, i, m)
  {
    if i > 0 {
      var before, part := Parts(cpts, pages, i - 1), Part(cpts, pages, i - 1);
      PartsNames(cpts, pages, i - 1);
      PartApart(cpts, pages, i - 1);
      AllEarlier(cpts, i, Names(before), Names(part));
      NamesConcat(before, part);
    }
  }

  lemma NamesJoin(a: seq<Section>, b: seq<Section>, c: seq<Section>, name: Title, key: Key, value: Value)
    ensures Names(a + SetIn(b, name, key, value) + c) == Names(a) + Names(b) + Names(c)
  {
    SetInNames(b, name, key, value);
  }

  lemma ClosingNames(pagePtr: nat, n: nat, tick: nat)
    ensures Names(Closing(pagePtr, n, tick)) == [System, Globals]
  {
  }

  lemma ConfigNames(cpts: seq<Checkpoint>, counts: seq<nat>, pages: nat)
    requires cpts != [] && |counts| == |cpts|
    ensures Names(Config(cpts, counts, pages)) ==
            Names(Parts(cpts, counts, |cpts| - 1)) + Names(Part(cpts, counts, |cpts| - 1)) + [System, Globals]
  {
    var n := |cpts|;
    ClosingNames(PagesBefore(counts, n), n, LatestOf(cpts, n));
    NamesJoin(Parts(cpts, counts, n - 1), Part(cpts, counts, n - 1),
              Closing(PagesBefore(counts, n), n, LatestOf(cpts, n)), Store0, RangeSize, Number(PAGE * pages));
  }

  lemma NotClosingPart(cpts: seq<Checkpoint>, m: Title)
    requires cpts != []
    requires Earlier(cpts, |cpts| - 1, m) || FromSource(m, cpts[|cpts| - 1].sections, |cpts| - 1, |cpts|)
    ensures m !in [System, Globals]
  {
  }

  lemma SourceMergesAt(cpts: seq<Checkpoint>, j: nat, m: Title)
    requires j < |cpts| && WellNamed(cpts[j]) && FromSource(m, cpts[j].sections, j, |cpts|)
    ensures m.Merges(|cpts|)
  {
    var k :| 0 <= k < |cpts[j].sections| && NamedAfter(m, cpts[j].sections[k], j, |cpts|);
    assert cpts[j].sections[k].name.Original();
  }

  lemma SourceMerges(cpts: seq<Checkpoint>, m: Title)
    requires cpts != [] && forall i | 0 <= i < |cpts| :: WellNamed(cpts[i])
    requires Earlier(cpts, |cpts| - 1, m) || FromSource(m, cpts[|cpts| - 1].sections, |cpts| - 1, |cpts|)
    ensures m.Merges(|cpts|)
  {
    var j :| 0 <= j < |cpts| && FromSource(m, cpts[j].sections, j, |cpts|);
    SourceMergesAt(cpts, j, m);
  }

  lemma TitlesApart(cpts: seq<Checkpoint>, counts: seq<nat>, pages: nat)
    requires cpts != [] && |counts| == |cpts| && forall i | 0 <= i < |cpts| :: WellNamed(cpts[i])
    ensures var names := Names(Config(cpts, counts, pages));
            Distinct(names) && forall m | m in names :: m.Merges(|cpts|)
  {
    var n := |cpts|;
    PartsNames(cpts, counts, n - 1);
    PartApart(cpts, counts, n - 1);
    var names := Names(Parts(cpts, counts, n - 1)) + Names(Part(cpts, counts, n - 1));
    forall m | m in names ensures m !in [System, Globals] && m.Merges(n) {
      NotClosingPart(cpts, m);
      SourceMerges(cpts, m);
    }
    WithClosing(names, n);
    ConfigNames(cpts, counts, pages);
  }

  lemma WithClosing(names: seq<Title>, n: nat)
    requires Distinct(names) && forall m | m in names :: m !in [System, Globals] && m.Merges(n)
    ensures var all := names + [System, Globals]; Distinct(all) && forall m | m in all :: m.Merges(n)
  {
    ConcatDistinct(names, [System, Globals]);
  }

  /** The section names as they are written. */
  function Headings(sections: seq<Section>, n: nat): (r: seq<string>)
    requires forall m | m in Names(sections) :: m.Merges(n)
    ensures |r| == |sections| && forall k | 0 <= k < |r| :: Names(sections)[k].Merges(n) && r[k] == Rendered(Names(sections)[k], n)
  {
    seq(|sections|, k requires 0 <= k < |sections| => assert Names(sections)[k].Merges(n); Rendered(Names(sections)[k], n))
  }

  /** Main result: the merged configuration never repeats a section name; the texts that are
      written are pairwise different. */
  lemma NoNameTwice(cpts: seq<Checkpoint>, counts: seq<nat>, pages: nat)
    requires cpts != [] && |counts| == |cpts| && forall i | 0 <= i < |cpts| :: WellNamed(cpts[i])
    ensures forall m | m in Names(Config(cpts, counts, pages)) :: m.Merges(|cpts|)
    ensures Distinct(Headings(Config(cpts, counts, pages), |cpts|))
  {
    var names := Names(Config(cpts, counts, pages));
    TitlesApart(cpts, counts, pages);
    var headings := Headings(Config(cpts, counts, pages), |cpts|);
    forall a, b | 0 <= a < b < |headings| ensures headings[a] != headings[b] {
      if headings[a] == headings[b] {
        RenderedInjective(names[a], names[b], |cpts|);
      }
    }
  }

  // ---------- Every address keeps its meaning ----------

  lemma {:induction false} MergedHas(sections: seq<Section>, i: nat, n: nat, base: nat, k: nat)
    requires i < n && k < |sections| && sections[k].name.Cpu?
    ensures MoveSection(sections[k], i, base) in Merged(sections, i, n, base)
  {
    if k < |sections| - 1 {
      MergedHas(sections[..|sections| - 1], i, n, base, k);
    }
  }

  lemma InConcat(a: seq<Section>, b: seq<Section>, s: Section)
    requires s in a || s in b
    ensures s in a + b
  {
  }

  lemma {:induction false} PartsHave(cpts: seq<Checkpoint>, pages: seq<nat>, i: nat, m: nat, s: Section)
    requires i < m <= |cpts| == |pages| && s in Part(cpts, pages, i)
    ensures s in Parts(cpts, pages, m)
    decreases m
  {
    var before, part := Parts(cpts, pages, m - 1), Part(cpts, pages, m - 1);
    if i < m - 1 {
      PartsHave(cpts, pages, i, m - 1, s);
    }
    InConcat(before, part, s);
  }

  lemma SetInKeeps(sections: seq<Section>, name: Title, key: Key, value: Value, s: Section)
    requires s in sections && s.name != name
    ensures s in SetIn(sections, name, key, value)
  {
  }

  lemma InResult(earlier: seq<Section>, last: seq<Section>, closing: seq<Section>, pages: nat, s: Section)
    requires s in earlier || (s in last && s.name != Store0)
    ensures s in earlier + WithSize(last, pages) + closing
  {
    if s !in earlier {
      SetInKeeps(last, Store0, RangeSize, Number(PAGE * pages), s);
    }
    InConcat(earlier, WithSize(last, pages), s);
    InConcat(earlier + WithSize(last, pages), closing, s);
  }

  lemma ConfigHas(cpts: seq<Checkpoint>, counts: seq<nat>, pages: nat, i: nat, s: Section)
    requires i < |cpts| == |counts| && s in Part(cpts, counts, i) && s.name != Store0
    ensures s in Config(cpts, counts, pages)
  {
    var n := |cpts|;
    if i < n - 1 {
      PartsHave(cpts, counts, i, n - 1, s);
    }
    InResult(Parts(cpts, counts, n - 1), Part(cpts, counts, n - 1),
             Closing(PagesBefore(counts, n), n, LatestOf(cpts, n)), pages, s);
  }

  lemma MovedAddress(sec: Section, i: nat, n: nat, base: nat, a: nat)
    requires i < n && Lookup(sec.items, Paddr) == Some(Number(a))
    ensures Lookup(MoveSection(sec, i, base).items, Paddr) == Some(Number(a + PAGE * base))
  {
    LookupMoved(sec.items, base, Paddr);
    LookupSet(MoveAll(sec.items, base), Pid, Number(i), Paddr);
  }

  /** Main result: the address stored in a CPU section of any checkpoint is found, moved, in
      the section with its new name, and the byte there is the byte it had. */
  lemma AddressKeepsMeaning(cpts: seq<Checkpoint>, memorySize: int, out: Output, pages: nat, i: nat, k: nat, a: nat)
    requires Mergeable(cpts) && IsOutput(out, pages, cpts, memorySize)
    requires i < |cpts| && k < |cpts[i].sections| && cpts[i].sections[k].name.Cpu?
    requires Lookup(cpts[i].sections[k].items, Paddr) == Some(Number(a))
    requires Full(cpts, PagesOf(cpts), i) && a < PAGE * PagesIn(cpts[i]) && a < |cpts[i].image|
    ensures exists s | s in out.config ::
              s.name == Retitle(cpts[i].sections[k].name, i) && PointsTo(s, out.store, cpts[i].image[a])
  {
    var sec, base := cpts[i].sections[k], PagesBefore(PagesOf(cpts), i);
    var s := MoveSection(sec, i, base);
    assert s in out.config && s.name == Retitle(sec.name, i) by { MovedThere(cpts, PagesOf(cpts), pages, i, k); }
    assert PointsTo(s, out.store, cpts[i].image[a]) by {
      MovedAddress(sec, i, |cpts|, base, a);
      StillThere(cpts, memorySize, out, pages, i, a);
    }
  }

  lemma MovedThere(cpts: seq<Checkpoint>, counts: seq<nat>, pages: nat, i: nat, k: nat)
    requires i < |cpts| == |counts| && k < |cpts[i].sections| && cpts[i].sections[k].name.Cpu?
    ensures var sec := cpts[i].sections[k];
            var s := MoveSection(sec, i, PagesBefore(counts, i));
            s in Config(cpts, counts, pages) && s.name == Retitle(sec.name, i)
  {
    var sec, base := cpts[i].sections[k], PagesBefore(counts, i);
    MergedHas(cpts[i].sections, i, |cpts|, base, k);
    ConfigHas(cpts, counts, pages, i, MoveSection(sec, i, base));
  }

  lemma StillThere(cpts: seq<Checkpoint>, memorySize: int, out: Output, pages: nat, i: nat, a: nat)
    requires Mergeable(cpts) && IsOutput(out, pages, cpts, memorySize) && i < |cpts|
    requires Full(cpts, PagesOf(cpts), i) && a < PAGE * PagesIn(cpts[i]) && a < |cpts[i].image|
    ensures var b := a + PAGE * PagesBefore(PagesOf(cpts), i);
            b < |out.store| && out.store[b] == cpts[i].image[a]
  {
    Relocated(cpts, PagesOf(cpts), i, a);
  }

  predicate PointsTo(s: Section, store: seq<Byte>, b: Byte) {
    match Lookup(s.items, Paddr)
    case Some(Number(x)) => x < |store| && store[x] == b
    case _ => false
  }

  // ---------- Size ----------

  lemma {:induction false} SetInSets(sections: seq<Section>, name: Title, key: Key, value: Value)
    requires name in Names(sections)
    ensures exists s | s in SetIn(sections, name, key, value) :: s.name == name && Lookup(s.items, key) == Some(value)
  {
    if sections[0].name != name {
      assert Names(sections) == [sections[0].name] + Names(sections[1..]);
      SetInSets(sections[1..], name, key, value);
      var s :| s in SetIn(sections[1..], name, key, value) && s.name == name && Lookup(s.items, key) == Some(value);
      assert s in SetIn(sections, name, key, value);
    } else {
      var s := Section(name, Set(sections[0].items, key, value));
      LookupSet(sections[0].items, key, value, key);
      assert s in SetIn(sections, name, key, value);
    }
  }

  /** The recorded size reaches the wanted size, and it is the size of the store exactly when
      every image holds its pages. */
  lemma {:induction false} SizeExact(cpts: seq<Checkpoint>, memorySize: int, out: Output, pages: nat)
    requires Mergeable(cpts) && IsOutput(out, pages, cpts, memorySize) && WellNamed(cpts[|cpts| - 1])
    ensures exists s | s in out.config :: s.name == Store0 && Lookup(s.items, RangeSize) == Some(Number(PAGE * pages))
    ensures PAGE * pages >= memorySize
    ensures |out.store| == PAGE * pages <==> Full(cpts, PagesOf(cpts), |cpts|)
  {
    StartExact(cpts, PagesOf(cpts), |cpts|);
    StoreSectionKept(cpts);
    var part := Part(cpts, PagesOf(cpts), |cpts| - 1);
    SetInSets(part, Store0, RangeSize, Number(PAGE * pages));
    var s :| s in WithSize(part, pages) && s.name == Store0 && Lookup(s.items, RangeSize) == Some(Number(PAGE * pages));
    assert s in out.config;
  }

  // ---------- Time ----------

  predicate TicksAt(sections: seq<Section>, k: nat, t: nat)
    requires k < |sections|
  {
    sections[k].name == Globals && TickOf(sections[k]) == t
  }

  lemma {:induction false} LatestBounds(sections: seq<Section>, t: nat)
    ensures Latest(sections, t) >= t
    ensures forall k, u: nat | 0 <= k < |sections| && TicksAt(sections, k, u) :: u <= Latest(sections, t)
    ensures Latest(sections, t) == t || exists k | 0 <= k < |sections| :: TicksAt(sections, k, Latest(sections, t))
  {
    if sections != [] {
      var front := sections[..|sections| - 1];
      LatestBounds(front, t);
      forall k, u: nat | 0 <= k < |sections| && TicksAt(sections, k, u) ensures u <= Latest(sections, t) {
        assert k < |front| ==> TicksAt(front, k, u);
      }
      if Latest(sections, t) != t {
        if Latest(sections, t) == Latest(front, t) {
          var k :| 0 <= k < |front| && TicksAt(front, k, Latest(front, t));
          assert TicksAt(sections, k, Latest(sections, t));
        } else {
          assert TicksAt(sections, |front|, Latest(sections, t));
        }
      }
    }
  }

  /** The tick of the merge is the latest tick of all the checkpoints, or 0. */
  lemma {:induction false} LatestOfAll(cpts: seq<Checkpoint>, n: nat)
    requires n <= |cpts|
    ensures forall i, k, u: nat | 0 <= i < n && 0 <= k < |cpts[i].sections| && TicksAt(cpts[i].sections, k, u) ::
              u <= LatestOf(cpts, n)
    ensures LatestOf(cpts, n) == 0 || exists i, k | 0 <= i < n && 0 <= k < |cpts[i].sections| ::
              TicksAt(cpts[i].sections, k, LatestOf(cpts, n))
  {
    if n > 0 {
      LatestOfAll(cpts, n - 1);
      LatestBounds(cpts[n - 1].sections, LatestOf(cpts, n - 1));
    }
  }
}
