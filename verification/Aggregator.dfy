/** Merging the memories and the configurations of several checkpoints into one. */
module Aggregator {
  import opened Basics
  import opened SectionNames

  const PAGE: nat := 4096

  datatype Value = Text(text: string) | Number(n: nat)

  /** The keys the merge reads or writes itself, and any other. */
  datatype Key = Paddr | PagePtr | NextPid | CurTick | RangeSize | Pid | OtherKey(text: string)

  datatype Item = Item(key: Key, value: Value)

  /** The names of sections: "system", "Globals", "system.physmem.store0", any other without
      "cpu", any with "cpu", and what the last becomes for one of the checkpoints. */
  datatype Title = System | Globals | Store0 | Plain(text: string) | Cpu(text: string) | Renamed(text: string, index: nat) {
    /** The constructor says whether the name has a "cpu" in it. */
    predicate Original() {
      !Renamed? && (Cpu? ==> HasCpu(text)) && (Plain? ==> !HasCpu(text) && !IsFixed(text))
    }

    /** A name of the merged configuration of `n` checkpoints. */
    predicate Merges(n: nat) {
      !Cpu? && (Renamed? ==> HasCpu(text) && index < n) && (Plain? ==> Original())
    }
  }

  const SYSTEM := "system"
  const GLOBALS := "Globals"
  const STORE0 := "system.physmem.store0"

  predicate IsFixed(text: string) {
    text == SYSTEM || text == GLOBALS || text == STORE0
  }

  datatype Section = Section(name: Title, items: seq<Item>)

  datatype Checkpoint = Checkpoint(sections: seq<Section>, image: seq<Byte>)

  // ---------- Memory ----------

  function Min(a: nat, b: nat): nat {
    if a < b then a else b
  }

  /** What reading `pages` whole pages from an image gives; the image may be short. */
  function PagesTaken(image: seq<Byte>, pages: nat): (r: seq<Byte>)
    ensures |r| == PAGE * pages <==> |image| >= PAGE * pages
  {
    image[..Min(PAGE * pages, |image|)]
  }

  /** Reads an image page by page. */
  method CopyPages(image: seq<Byte>, pages: nat) returns (copied: seq<Byte>)
    ensures copied == PagesTaken(image, pages)
  {
    copied := [];
    var unread := image;
    var x := 0;
    while x < pages
      invariant x <= pages
      invariant copied == PagesTaken(image, x) && unread == image[|copied|..]
    {
      var k := Min(PAGE, |unread|);
      copied := copied + unread[..k];
      unread := unread[k..];
      x := x + 1;
    }
  }

  function PagesBefore(pages: seq<nat>, i: nat): nat
    requires i <= |pages|
  {
    if i == 0 then 0 else PagesBefore(pages, i - 1) + pages[i - 1]
  }

  /** The merged store after the first `i` checkpoints. */
  function Store(cpts: seq<Checkpoint>, pages: seq<nat>, i: nat): seq<Byte>
    requires |cpts| == |pages| && i <= |cpts|
  {
    if i == 0 then [] else Store(cpts, pages, i - 1) + PagesTaken(cpts[i - 1].image, pages[i - 1])
  }

  predicate Full(cpts: seq<Checkpoint>, pages: seq<nat>, i: nat)
    requires |cpts| == |pages| && i <= |cpts|
  {
    forall j | 0 <= j < i :: |cpts[j].image| >= PAGE * pages[j]
  }

  /** The pages of a checkpoint start where its addresses are moved to exactly when every
      image before it holds all its pages. */
  lemma {:induction false} StartExact(cpts: seq<Checkpoint>, pages: seq<nat>, i: nat)
    requires |cpts| == |pages| && i <= |cpts|
    ensures |Store(cpts, pages, i)| <= PAGE * PagesBefore(pages, i)
    ensures |Store(cpts, pages, i)| == PAGE * PagesBefore(pages, i) <==> Full(cpts, pages, i)
  {
    if i > 0 {
      StartExact(cpts, pages, i - 1);
      assert PAGE * PagesBefore(pages, i) == PAGE * PagesBefore(pages, i - 1) + PAGE * pages[i - 1];
    }
  }

  lemma {:induction false} StoreGrows(cpts: seq<Checkpoint>, pages: seq<nat>, i: nat, n: nat)
    requires |cpts| == |pages| && i <= n <= |cpts|
    ensures Store(cpts, pages, i) <= Store(cpts, pages, n)
    ensures PagesBefore(pages, i) <= PagesBefore(pages, n)
    decreases n
  {
    if i < n {
      StoreGrows(cpts, pages, i, n - 1);
    }
  }

  /** The byte at the new address is the byte at the old address. */
  lemma Relocated(cpts: seq<Checkpoint>, pages: seq<nat>, i: nat, address: nat)
    requires |cpts| == |pages| && i < |cpts| && Full(cpts, pages, i)
    requires address < PAGE * pages[i] && address < |cpts[i].image|
    ensures address + PAGE * PagesBefore(pages, i) < |Store(cpts, pages, |cpts|)|
    ensures Store(cpts, pages, |cpts|)[address + PAGE * PagesBefore(pages, i)] == cpts[i].image[address]
  {
    StartExact(cpts, pages, i);
    StoreGrows(cpts, pages, i + 1, |cpts|);
    assert Store(cpts, pages, i + 1)[address + PAGE * PagesBefore(pages, i)] == cpts[i].image[address];
  }

  /** Addresses of different checkpoints stay apart. */
  lemma FramesDisjoint(cpts: seq<Checkpoint>, pages: seq<nat>, i: nat, a: nat, j: nat, b: nat)
    requires |cpts| == |pages| && i < j < |cpts| && a < PAGE * pages[i]
    ensures a + PAGE * PagesBefore(pages, i) < b + PAGE * PagesBefore(pages, j)
  {
  }

  // ---------- Padding ----------

  function DummyPage(): (r: seq<Byte>)
    ensures |r| == PAGE
  {
    seq(PAGE, i => 48)
  }

  /** Appends dummy pages until the counted size reaches the wanted size. */
  method Pad(store: seq<Byte>, pagePtr: nat, memorySize: int) returns (padded: seq<Byte>, pages: nat)
    ensures store <= padded && |padded| - |store| == PAGE * (pages - pagePtr)
    ensures PAGE * pages >= memorySize && pages >= pagePtr
    ensures pages > pagePtr ==> PAGE * (pages - 1) < memorySize
    ensures forall k | |store| <= k < |padded| :: padded[k] == 48
  {
    padded, pages := store, pagePtr;
    var fileSize := pagePtr * 4 * 1024;
    while fileSize < memorySize
      invariant fileSize == PAGE * pages && pages >= pagePtr
      invariant store <= padded && |padded| - |store| == PAGE * (pages - pagePtr)
      invariant pages > pagePtr ==> PAGE * (pages - 1) < memorySize
      invariant forall k | |store| <= k < |padded| :: padded[k] == 48
    {
      padded := padded + DummyPage();
      fileSize := fileSize + 4 * 1024;
      pages := pages + 1;
    }
  }

  // ---------- Configuration ----------

  function Names(sections: seq<Section>): (r: seq<Title>)
    ensures |r| == |sections| && forall i | 0 <= i < |r| :: r[i] == sections[i].name
  {
    seq(|sections|, i requires 0 <= i < |sections| => sections[i].name)
  }

  function Find(sections: seq<Section>, name: Title): Option<Section> {
    if sections == [] then None
    else if sections[0].name == name then Some(sections[0])
    else Find(sections[1..], name)
  }

  function Lookup(items: seq<Item>, key: Key): Option<Value> {
    if items == [] then None
    else if items[0].key == key then Some(items[0].value)
    else Lookup(items[1..], key)
  }

  function GetNumber(c: Checkpoint, name: Title, key: Key): Option<nat> {
    match Find(c.sections, name)
    case None => None
    case Some(sec) =>
      match Lookup(sec.items, key)
      case Some(Number(n)) => Some(n)
      case _ => None
  }

  /** Setting a key replaces its value or adds it at the end. */
  function Set(items: seq<Item>, key: Key, value: Value): seq<Item> {
    if items == [] then [Item(key, value)]
    else if items[0].key == key then [Item(key, value)] + items[1..]
    else [items[0]] + Set(items[1..], key, value)
  }

  lemma {:induction false} LookupSet(items: seq<Item>, key: Key, value: Value, k: Key)
    ensures Lookup(Set(items, key, value), k) == if k == key then Some(value) else Lookup(items, k)
  {
    if items != [] && items[0].key != key {
      LookupSet(items[1..], key, value, k);
      assert Set(items, key, value)[1..] == Set(items[1..], key, value);
    } else {
      assert items != [] ==> Set(items, key, value)[1..] == items[1..];
    }
  }

  predicate IsMovable(item: Item) {
    item.key == Paddr ==> item.value.Number?
  }

  predicate AddressesAreNumbers(items: seq<Item>) {
    items == [] || (AddressesAreNumbers(items[..|items| - 1]) && IsMovable(items[|items| - 1]))
  }

  lemma NotNumberBefore(items: seq<Item>, k: nat)
    requires k <= |items| && !AddressesAreNumbers(items[..k])
    ensures !AddressesAreNumbers(items)
    decreases |items| - k
  {
    if k == |items| {
      assert items[..k] == items;
    } else {
      assert items[..k + 1][..k] == items[..k];
      NotNumberBefore(items, k + 1);
    }
  }

  /** The address of an item is moved; an address that is no number stops the merge. */
  function Move(item: Item, base: nat): Item {
    if item.key == Paddr && item.value.Number? then Item(Paddr, Number(item.value.n + PAGE * base)) else item
  }

  function MoveAll(items: seq<Item>, base: nat): (r: seq<Item>)
    ensures |r| == |items| && forall k | 0 <= k < |r| :: r[k] == Move(items[k], base)
  {
    seq(|items|, k requires 0 <= k < |items| => Move(items[k], base))
  }

  method MoveItems(items: seq<Item>, base: nat) returns (r: Option<seq<Item>>)
    ensures r.Some? <==> AddressesAreNumbers(items)
    ensures r.Some? ==> r.value == MoveAll(items, base)
  {
    var moved: seq<Item> := [];
    for k := 0 to |items|
      invariant AddressesAreNumbers(items[..k]) && moved == MoveAll(items[..k], base)
    {
      var item := items[k];
      assert items[..k + 1][..k] == items[..k];
      if item.key == Paddr {
        if !item.value.Number? {
          NotNumberBefore(items, k + 1);
          return None;
        }
        moved := moved + [Item(item.key, Number(item.value.n + PAGE * base))];
      } else {
        moved := moved + [item];
      }
    }
    assert items[..|items|] == items;
    r := Some(moved);
  }

  lemma {:induction false} LookupMoved(items: seq<Item>, base: nat, key: Key)
    ensures match Lookup(items, key)
            case Some(Number(a)) =>
              Lookup(MoveAll(items, base), key) == Some(Number(if key == Paddr then a + PAGE * base else a))
            case other => Lookup(MoveAll(items, base), key) == other
  {
    if items != [] {
      LookupMoved(items[1..], base, key);
      assert MoveAll(items, base)[1..] == MoveAll(items[1..], base);
    }
  }

  /** The name ends in "workload", any character, "FdMap256". */
  predicate IsFdMap(name: Title) {
    name.Cpu? && EndsInFdMap(name.text)
  }

  predicate EndsInFdMap(s: string) {
    var n := |s|;
    n >= 17 && s[n - 17..n - 9] == "workload" && s[n - 8..] == "FdMap256"
  }

  function Retitle(name: Title, i: nat): Title {
    if name.Cpu? then Renamed(name.text, i) else name
  }

  /** The name in the configuration that is written. */
  function Rendered(name: Title, n: nat): string
    requires name.Renamed? ==> name.index < n
  {
    match name
    case System => SYSTEM
    case Globals => GLOBALS
    case Store0 => STORE0
    case Plain(text) => text
    case Cpu(text) => text
    case Renamed(text, i) => Rename(text, i, n)
  }

  lemma FixedWithoutCpu()
    ensures !HasCpu(SYSTEM) && !HasCpu(GLOBALS)
  {
    WithoutCpu(SYSTEM);
    WithoutCpu(GLOBALS);
  }

  lemma StoreWithoutCpu()
    ensures !HasCpu(STORE0)
  {
    WithoutCpu(STORE0);
  }

  /** Only the names of the CPU sections are written with a "cpu". */
  lemma RenderedCpu(name: Title, n: nat)
    requires name.Merges(n)
    ensures HasCpu(Rendered(name, n)) <==> name.Renamed?
  {
    if name.Renamed? {
      InsertHasCpu(name.text, Index(name.index, n));
    } else if !name.Plain? {
      FixedWithoutCpu();
      StoreWithoutCpu();
    }
  }

  lemma FixedApart()
    ensures SYSTEM != GLOBALS && SYSTEM != STORE0 && GLOBALS != STORE0
  {
    assert |SYSTEM| == 6 && |GLOBALS| == 7 && |STORE0| == 21;
  }

  /** Different names are written differently. */
  lemma RenderedInjective(a: Title, b: Title, n: nat)
    requires a.Merges(n) && b.Merges(n) && Rendered(a, n) == Rendered(b, n)
    ensures a == b
  {
    RenderedCpu(a, n);
    RenderedCpu(b, n);
    if a.Renamed? {
      RenameInjective(a.text, a.index, b.text, b.index, n);
    } else {
      FixedApart();
    }
  }

  function MoveSection(sec: Section, i: nat, base: nat): Section {
    var items := MoveAll(sec.items, base);
    Section(Retitle(sec.name, i), if IsFdMap(sec.name) then Set(items, Pid, Number(i)) else items)
  }

  predicate Kept(sec: Section) {
    !sec.name.Cpu? && sec.name != System && sec.name != Globals
  }

  /** What a section becomes in the merged configuration. */
  function Contribution(sec: Section, i: nat, n: nat, base: nat): seq<Section>
    requires i < n
  {
    if sec.name.Cpu? then [MoveSection(sec, i, base)]
    else if Kept(sec) && i == n - 1 then [sec]
    else []
  }

  /** The sections that checkpoint `i` of `n` contributes. */
  function Merged(sections: seq<Section>, i: nat, n: nat, base: nat): seq<Section>
    requires i < n
  {
    if sections == [] then []
    else Merged(sections[..|sections| - 1], i, n, base) + Contribution(sections[|sections| - 1], i, n, base)
  }

  predicate Originals(sections: seq<Section>) {
    forall k | 0 <= k < |sections| :: sections[k].name.Original()
  }

  /** Where a merged name can come from. */
  ghost predicate FromSource(name: Title, sources: seq<Section>, i: nat, n: nat)
    requires i < n
  {
    exists k :: 0 <= k < |sources| && NamedAfter(name, sources[k], i, n)
  }

  predicate NamedAfter(name: Title, sec: Section, i: nat, n: nat)
    requires i < n
  {
    name == Retitle(sec.name, i) && (sec.name.Cpu? || (Kept(sec) && i == n - 1))
  }

  ghost predicate AllFrom(names: seq<Title>, sources: seq<Section>, i: nat, n: nat)
    requires i < n
  {
    forall m | m in names :: FromSource(m, sources, i, n)
  }

  lemma NotRepeated(front: seq<Section>, sec: Section, m: Title, i: nat, n: nat)
    requires i < n && FromSource(m, front, i, n) && sec.name !in Names(front) && Originals(front + [sec])
    ensures FromSource(m, front + [sec], i, n) && m != Retitle(sec.name, i)
  {
    var k :| 0 <= k < |front| && NamedAfter(m, front[k], i, n);
    var all := front + [sec];
    assert NamedAfter(m, all[k], i, n);
    assert Names(front)[k] == front[k].name && all[k].name.Original() && all[|front|].name.Original();
  }

  lemma NamesConcat(a: seq<Section>, b: seq<Section>)
    ensures Names(a + b) == Names(a) + Names(b)
  {
  }

  lemma ContributionNames(sec: Section, i: nat, n: nat, base: nat)
    requires i < n
    ensures var names := Names(Contribution(sec, i, n, base));
            names == [] || (names == [Retitle(sec.name, i)] && NamedAfter(Retitle(sec.name, i), sec, i, n))
  {
  }

  lemma StillFrom(names: seq<Title>, front: seq<Section>, sec: Section, i: nat, n: nat)
    requires i < n && AllFrom(names, front, i, n) && sec.name !in Names(front) && Originals(front + [sec])
    ensures AllFrom(names, front + [sec], i, n) && Retitle(sec.name, i) !in names
  {
    forall m | m in names ensures FromSource(m, front + [sec], i, n) && m != Retitle(sec.name, i) {
      NotRepeated(front, sec, m, i, n);
    }
  }

  lemma OneMore(names: seq<Title>, front: seq<Section>, sec: Section, i: nat, n: nat, base: nat)
    requires i < n && Distinct(names) && AllFrom(names, front, i, n)
    requires sec.name !in Names(front) && Originals(front + [sec])
    ensures Distinct(names + Names(Contribution(sec, i, n, base)))
    ensures AllFrom(names + Names(Contribution(sec, i, n, base)), front + [sec], i, n)
  {
    var name, more := Retitle(sec.name, i), Names(Contribution(sec, i, n, base));
    StillFrom(names, front, sec, i, n);
    ContributionNames(sec, i, n, base);
    if more == [] {
      assert names + more == names;
    } else {
      assert (names + [name])[..|names|] == names;
      assert NamedAfter(name, (front + [sec])[|front|], i, n);
    }
  }

  /** The names a checkpoint contributes are distinct and come from its sections. */
  lemma {:induction false} MergedNames(sections: seq<Section>, i: nat, n: nat, base: nat)
    requires i < n && Distinct(Names(sections)) && Originals(sections)
    ensures Distinct(Names(Merged(sections, i, n, base)))
    ensures AllFrom(Names(Merged(sections, i, n, base)), sections, i, n)
  {
    if sections != [] {
      var front, sec := sections[..|sections| - 1], sections[|sections| - 1];
      assert Names(front) == Names(sections)[..|front|];
      assert sections == front + [sec];
      MergedNames(front, i, n, base);
      OneMore(Names(Merged(front, i, n, base)), front, sec, i, n, base);
      NamesConcat(Merged(front, i, n, base), Contribution(sec, i, n, base));
    }
  }

  // ---------- One checkpoint ----------

  predicate HasTick(sec: Section) {
    var v := Lookup(sec.items, CurTick);
    v.Some? && v.value.Number?
  }

  /** No exception is raised on the section. */
  predicate ReadableSection(sec: Section) {
    (sec.name.Cpu? ==> AddressesAreNumbers(sec.items)) && (sec.name == Globals ==> HasTick(sec))
  }

  predicate Readable(sections: seq<Section>) {
    sections == [] || (Readable(sections[..|sections| - 1]) && ReadableSection(sections[|sections| - 1]))
  }

  lemma UnreadableBefore(sections: seq<Section>, k: nat)
    requires k <= |sections| && !Readable(sections[..k])
    ensures !Readable(sections)
    decreases |sections| - k
  {
    if k == |sections| {
      assert sections[..k] == sections;
    } else {
      assert sections[..k + 1][..k] == sections[..k];
      UnreadableBefore(sections, k + 1);
    }
  }

  function TickOf(sec: Section): nat {
    if HasTick(sec) then Lookup(sec.items, CurTick).value.n else 0
  }

  function Later(sec: Section, t: nat): nat {
    if sec.name == Globals && TickOf(sec) > t then TickOf(sec) else t
  }

  /** The latest tick among `t` and the ticks of the sections. */
  function Latest(sections: seq<Section>, t: nat): nat {
    if sections == [] then t else Later(sections[|sections| - 1], Latest(sections[..|sections| - 1], t))
  }

  method MoveCpu(sec: Section, i: nat, base: nat) returns (r: Option<Section>)
    ensures r.Some? <==> AddressesAreNumbers(sec.items)
    ensures r.Some? ==> r.value == MoveSection(sec, i, base)
  {
    var moved := MoveItems(sec.items, base);
    if moved.None? {
      return None;
    }
    var items := moved.value;
    if IsFdMap(sec.name) {
      items := Set(items, Pid, Number(i));
    }
    r := Some(Section(Retitle(sec.name, i), items));
  }

  /** The next section never has a name that is taken. */
  lemma Unused(sections: seq<Section>, k: nat, i: nat, n: nat, base: nat)
    requires k < |sections| && i < n && Distinct(Names(sections)) && Originals(sections)
    ensures Retitle(sections[k].name, i) !in Names(Merged(sections[..k], i, n, base))
  {
    var front, sec := sections[..k], sections[k];
    assert Names(front) == Names(sections)[..k];
    MergedNames(front, i, n, base);
    forall m | m in Names(Merged(front, i, n, base)) ensures m != Retitle(sec.name, i) {
      NotRepeated(front, sec, m, i, n);
    }
  }

  /** Renames, moves or keeps one section; not `ok` is an exception. */
  method MergeSection(sec: Section, merged: seq<Section>, i: nat, n: nat, base: nat, t: nat)
    returns (ok: bool, more: seq<Section>, tick: nat)
    requires i < n && Retitle(sec.name, i) !in Names(merged)
    ensures ok <==> ReadableSection(sec)
    ensures ok ==> more == merged + Contribution(sec, i, n, base) && tick == Later(sec, t)
  {
    ok, more, tick := true, merged, t;
    if sec.name.Cpu? {
      if Retitle(sec.name, i) in Names(merged) {
        return false, more, tick;
      }
      var moved := MoveCpu(sec, i, base);
      if moved.None? {
        return false, more, tick;
      }
      more := merged + [moved.value];
    } else if sec.name == System {
    } else if sec.name == Globals {
      var v := Lookup(sec.items, CurTick);
      if v.None? || v.value.Text? {
        return false, more, tick;
      }
      if v.value.n > tick {
        tick := v.value.n;
      }
    } else if i == n - 1 {
      if sec.name in Names(merged) {
        return false, more, tick;
      }
      more := merged + [sec];
    }
  }

  lemma PrefixStep(sections: seq<Section>, k: nat, i: nat, n: nat, base: nat, t: nat)
    requires k < |sections| && i < n
    ensures Readable(sections[..k + 1]) <==> Readable(sections[..k]) && ReadableSection(sections[k])
    ensures Merged(sections[..k + 1], i, n, base) ==
            Merged(sections[..k], i, n, base) + Contribution(sections[k], i, n, base)
    ensures Latest(sections[..k + 1], t) == Later(sections[k], Latest(sections[..k], t))
  {
    assert sections[..k + 1][..k] == sections[..k];
  }

  /** The sections of one checkpoint. `None` is an exception. */
  method MergeSections(sections: seq<Section>, i: nat, n: nat, base: nat, t: nat)
    returns (r: Option<seq<Section>>, tick: nat)
    requires i < n && Distinct(Names(sections)) && Originals(sections)
    ensures r.Some? <==> Readable(sections)
    ensures r.Some? ==> r.value == Merged(sections, i, n, base) && tick == Latest(sections, t)
  {
    var merged: seq<Section> := [];
    tick := t;
    for k := 0 to |sections|
      invariant Readable(sections[..k])
      invariant merged == Merged(sections[..k], i, n, base) && tick == Latest(sections[..k], t)
    {
      PrefixStep(sections, k, i, n, base, t);
      Unused(sections, k, i, n, base);
      var ok;
      ok, merged, tick := MergeSection(sections[k], merged, i, n, base, tick);
      if !ok {
        UnreadableBefore(sections, k + 1);
        return None, tick;
      }
    }
    assert sections[..|sections|] == sections;
    r := Some(merged);
  }
}
