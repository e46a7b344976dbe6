/** The timeline drawing of the O3 pipeline viewer, without its colour codes. */
module PipeTimeline {
  import opened Sorting
  import opened PipeQueue

  /** Stages by index: fetch, decode, rename, dispatch, issue, complete, retire, store. */
  const STAGES := 7
  const DISPATCH := 3

  type Stage = s: nat | s < 8

  function StageCount(stores: bool): nat {
    if stores then STAGES + 1 else STAGES
  }

  function TickOf(i: Inst, stage: Stage): int
  {
    [i.fetch, i.decode, i.rename, i.dispatch, i.issue, i.complete, i.retire, i.store][stage]
  }

  function Letter(stage: Stage): char
  {
    "fdnpicrs"[stage]
  }

  /** The place of a stage's name among the names in alphabetical order. */
  function NameRank(stage: Stage): nat
  {
    [3, 1, 5, 2, 4, 0, 6, 7][stage]
  }

  function Max(a: int, b: int): int {
    if a >= b then a else b
  }

  function LastTick(i: Inst, stores: bool): (r: int)
    ensures forall s | 0 <= s < StageCount(stores) :: TickOf(i, s) <= r
    ensures exists s | 0 <= s < StageCount(stores) :: TickOf(i, s) == r
  {
    var m := Max(i.fetch, Max(i.decode, Max(i.rename, Max(i.dispatch, Max(i.issue, Max(i.complete, i.retire))))));
    assert TickOf(i, 0) == i.fetch && TickOf(i, 1) == i.decode && TickOf(i, 2) == i.rename;
    assert TickOf(i, 3) == i.dispatch && TickOf(i, 4) == i.issue && TickOf(i, 5) == i.complete;
    assert TickOf(i, 6) == i.retire && TickOf(i, 7) == i.store;
    if stores then Max(m, i.store) else m
  }

  /** Width of the drawing in columns and length of a cycle in ticks. */
  datatype Scale = Scale(width: int, cycle: int) {
    predicate Valid() { width > 0 && cycle > 0 }

    function Span(): (r: int)
      requires Valid()
      ensures r > 0
    {
      Positive(width, cycle);
      width * cycle
    }
  }

  lemma Positive(a: int, b: int)
    requires a > 0 && b > 0
    ensures a * b > 0
  {
  }

  function BaseTick(i: Inst, sc: Scale): int
    requires sc.Valid()
  {
    i.fetch / sc.Span() * sc.Span()
  }

  function NumLines(i: Inst, sc: Scale, stores: bool): int
    requires sc.Valid()
  {
    if LastTick(i, stores) - i.fetch < sc.Span() then 1
    else (LastTick(i, stores) - BaseTick(i, sc)) / sc.Span() + 1
  }

  function LineStart(i: Inst, sc: Scale, line: int): int
    requires sc.Valid()
  {
    BaseTick(i, sc) + line * sc.Span()
  }

  function LineEnd(i: Inst, sc: Scale, stores: bool, line: int): int
    requires sc.Valid()
  {
    LineStart(i, sc, line) + sc.Span()
      + (if NumLines(i, sc, stores) == 1 then i.fetch - BaseTick(i, sc) else 0)
  }

  predicate OnLine(i: Inst, sc: Scale, stores: bool, line: int, stage: Stage)
    requires sc.Valid()
  {
    TickOf(i, stage) != 0 && LineStart(i, sc, line) <= TickOf(i, stage) < LineEnd(i, sc, stores, line)
  }

  // ---------- Every event is on exactly one line ----------

  /** Nothing happens to the instruction before it is fetched. */
  predicate FetchedFirst(i: Inst, stores: bool) {
    i.fetch > 0 && forall s | 0 <= s < StageCount(stores) :: TickOf(i, s) != 0 ==> TickOf(i, s) >= i.fetch
  }

  lemma DivBounds(x: int, d: int)
    requires d > 0
    ensures x / d * d <= x < x / d * d + d
  {
  }

  lemma BaseBelowFetch(i: Inst, sc: Scale)
    requires sc.Valid()
    ensures BaseTick(i, sc) <= i.fetch < BaseTick(i, sc) + sc.Span()
  {
    DivBounds(i.fetch, sc.Span());
  }

  /** The drawing has one line exactly in the compact case. */
  lemma {:induction false} OneLineWhenCompact(i: Inst, sc: Scale, stores: bool)
    requires sc.Valid()
    ensures NumLines(i, sc, stores) >= 1
    ensures NumLines(i, sc, stores) == 1 <==> LastTick(i, stores) - i.fetch < sc.Span()
  {
    BaseBelowFetch(i, sc);
    assert TickOf(i, 0) == i.fetch;
    if LastTick(i, stores) - i.fetch >= sc.Span() {
      DivAtLeastOne(LastTick(i, stores) - BaseTick(i, sc), sc.Span());
    }
  }

  lemma DivAtLeastOne(x: int, d: int)
    requires 0 < d <= x
    ensures x / d >= 1
  {
    DivBounds(x, d);
  }

  lemma DivMonotone(x: int, y: int, d: int)
    requires 0 <= x <= y && d > 0
    ensures 0 <= x / d <= y / d
  {
    DivBounds(x, d);
    DivBounds(y, d);
    if x / d > y / d {
      MulMonotone(y / d + 1, x / d, d);
    }
  }

  lemma MulMonotone(a: int, b: int, d: int)
    requires a <= b && d > 0
    ensures a * d <= b * d
  {
  }

  /** The line on which a stage is drawn. */
  function LineOf(i: Inst, sc: Scale, stores: bool, stage: Stage): int
    requires sc.Valid()
  {
    if NumLines(i, sc, stores) == 1 then 0 else (TickOf(i, stage) - BaseTick(i, sc)) / sc.Span()
  }

  lemma SameLine(x: int, d: int, line: int)
    requires d > 0 && line * d <= x < line * d + d
    ensures line == x / d
  {
    DivBounds(x, d);
    if line < x / d {
      MulMonotone(line + 1, x / d, d);
    } else if line > x / d {
      MulMonotone(x / d + 1, line, d);
    }
  }

  /** Every stage reached is drawn on exactly one of the lines. */
  lemma {:induction false} DrawnOnce(i: Inst, sc: Scale, stores: bool, stage: Stage, line: int)
    requires sc.Valid() && FetchedFirst(i, stores) && stage < StageCount(stores) && TickOf(i, stage) != 0
    requires 0 <= line < NumLines(i, sc, stores)
    ensures 0 <= LineOf(i, sc, stores, stage) < NumLines(i, sc, stores)
    ensures OnLine(i, sc, stores, line, stage) <==> line == LineOf(i, sc, stores, stage)
  {
    var t, base, span := TickOf(i, stage), BaseTick(i, sc), sc.Span();
    BaseBelowFetch(i, sc);
    OneLineWhenCompact(i, sc, stores);
    if NumLines(i, sc, stores) > 1 {
      DivMonotone(t - base, LastTick(i, stores) - base, span);
      if OnLine(i, sc, stores, line, stage) {
        SameLine(t - base, span, line);
      }
      DivBounds(t - base, span);
    }
  }

  // ---------- What a line looks like ----------

  datatype Cell = Cell(column: int, letter: char)

  function Dots(n: int, dot: char): (r: string)
    ensures |r| == if n > 0 then n else 0
    ensures forall k | 0 <= k < |r| :: r[k] == dot
  {
    if n <= 0 then "" else Dots(n - 1, dot) + [dot]
  }

  /** The text from column `pos` on: dots up to each cell, its letter, dots to the end. */
  function Draw(cells: seq<Cell>, pos: int, width: int, dot: char): string {
    if cells == [] then Dots(width - pos, dot)
    else Dots(cells[0].column - pos, dot) + [cells[0].letter] + Draw(cells[1..], cells[0].column + 1, width, dot)
  }

  function Position(i: Inst, sc: Scale, stage: Stage): int
    requires sc.Valid()
  {
    TickOf(i, stage) % sc.Span()
  }

  function EventKey(i: Inst, sc: Scale): Stage -> int
    requires sc.Valid()
  {
    (s: Stage) => Position(i, sc, s) * 8 + NameRank(s)
  }

  function StagesOn(i: Inst, sc: Scale, stores: bool, line: int, n: nat): (r: seq<Stage>)
    requires sc.Valid() && n <= 8
    ensures forall s: Stage :: s in r <==> s < n && OnLine(i, sc, stores, line, s)
    ensures forall a, b | 0 <= a < b < |r| :: r[a] < r[b]
  {
    if n == 0 then []
    else
      var rest := StagesOn(i, sc, stores, line, n - 1);
      assert forall k | 0 <= k < |rest| :: rest[k] in rest;
      if OnLine(i, sc, stores, line, n - 1) then rest + [n - 1] else rest
  }

  /** A dispatch in the tick of the issue is not drawn. */
  predicate Shown(i: Inst, stage: Stage) {
    !(stage == DISPATCH && i.dispatch == i.issue)
  }

  function CellOf(i: Inst, sc: Scale, s: Stage): Cell
    requires sc.Valid()
  {
    Cell(Position(i, sc, s) / sc.cycle, Letter(s))
  }

  function CellsOf(i: Inst, sc: Scale, stages: seq<Stage>): (r: seq<Cell>)
    requires sc.Valid()
  {
    if stages == [] then []
    else if Shown(i, stages[0]) then [CellOf(i, sc, stages[0])] + CellsOf(i, sc, stages[1..])
    else CellsOf(i, sc, stages[1..])
  }

  function LineStages(i: Inst, sc: Scale, stores: bool, line: int): seq<Stage>
    requires sc.Valid()
  {
    SortBy(EventKey(i, sc), StagesOn(i, sc, stores, line, StageCount(stores)))
  }

  function LineCells(i: Inst, sc: Scale, stores: bool, line: int): seq<Cell>
    requires sc.Valid()
  {
    CellsOf(i, sc, LineStages(i, sc, stores, line))
  }

  function Dot(i: Inst): char {
    if i.retire == 0 then '=' else '.'
  }

  function LineText(i: Inst, sc: Scale, stores: bool, line: int): string
    requires sc.Valid()
  {
    Draw(LineCells(i, sc, stores, line), 0, sc.width, Dot(i))
  }

  // ---------- Drawing it ----------

  method Events(i: Inst, sc: Scale, stores: bool, line: int) returns (events: seq<Stage>)
    requires sc.Valid()
    ensures events == StagesOn(i, sc, stores, line, StageCount(stores))
  {
    events := [];
    for stage := 0 to StageCount(stores)
      invariant events == StagesOn(i, sc, stores, line, stage)
    {
      var tick := TickOf(i, stage);
      if tick != 0 {
        if tick >= LineStart(i, sc, line) && tick < LineEnd(i, sc, stores, line) {
          events := events + [stage];
        }
      }
    }
  }

  lemma DrawFirst(i: Inst, sc: Scale, stages: seq<Stage>, pos: int, dot: char)
    requires sc.Valid() && stages != [] && Shown(i, stages[0])
    ensures var column := Position(i, sc, stages[0]) / sc.cycle;
            Draw(CellsOf(i, sc, stages), pos, sc.width, dot) ==
            Dots(column - pos, dot) + [Letter(stages[0])] + Draw(CellsOf(i, sc, stages[1..]), column + 1, sc.width, dot)
  {
    var cell, rest := CellOf(i, sc, stages[0]), CellsOf(i, sc, stages[1..]);
    assert ([cell] + rest)[1..] == rest;
  }

  /** What is left to write when the events before index `n` are drawn. */
  ghost function Rest(i: Inst, sc: Scale, events: seq<Stage>, n: nat, pos: int): string
    requires sc.Valid() && n <= |events|
  {
    Draw(CellsOf(i, sc, events[n..]), pos, sc.width, Dot(i))
  }

  lemma RestStep(i: Inst, sc: Scale, events: seq<Stage>, n: nat, pos: int, text: string)
    requires sc.Valid() && n < |events|
    ensures !Shown(i, events[n]) ==> Rest(i, sc, events, n, pos) == Rest(i, sc, events, n + 1, pos)
    ensures Shown(i, events[n]) ==>
              var column := Position(i, sc, events[n]) / sc.cycle;
              text + Rest(i, sc, events, n, pos) ==
              (text + (Dots(column - pos, Dot(i)) + [Letter(events[n])])) + Rest(i, sc, events, n + 1, column + 1)
  {
    assert events[n..][1..] == events[n + 1..];
    if Shown(i, events[n]) {
      var column := Position(i, sc, events[n]) / sc.cycle;
      DrawFirst(i, sc, events[n..], pos, Dot(i));
      Associative(text, Dots(column - pos, Dot(i)) + [Letter(events[n])], Rest(i, sc, events, n + 1, column + 1));
    }
  }

  lemma Associative(a: string, b: string, c: string)
    ensures a + (b + c) == (a + b) + c
  {
  }

  method DrawEvents(i: Inst, sc: Scale, events: seq<Stage>) returns (text: string)
    requires sc.Valid()
    ensures text == Draw(CellsOf(i, sc, events), 0, sc.width, Dot(i))
  {
    var dot := Dot(i);
    var pos := 0;
    text := "";
    ghost var goal := Rest(i, sc, events, 0, 0);
    assert events[0..] == events;
    for n := 0 to |events|
      invariant text + Rest(i, sc, events, n, pos) == goal
    {
      var e := events[n];
      RestStep(i, sc, events, n, pos, text);
      if e == DISPATCH && i.dispatch == i.issue {
        continue;
      }
      var column := Position(i, sc, e) / sc.cycle;
      text := text + (Dots(column - pos, dot) + [Letter(e)]);
      pos := column + 1;
    }
    RestEnds(i, sc, events, pos);
    text := text + Dots(sc.width - pos, dot);
  }

  lemma RestEnds(i: Inst, sc: Scale, events: seq<Stage>, pos: int)
    requires sc.Valid()
    ensures Rest(i, sc, events, |events|, pos) == Dots(sc.width - pos, Dot(i))
  {
    assert events[|events|..] == [];
  }

  method DrawLine(i: Inst, sc: Scale, stores: bool, line: int) returns (text: string)
    requires sc.Valid()
    ensures text == LineText(i, sc, stores, line)
  {
    var events := Events(i, sc, stores, line);
    events := SortBy(EventKey(i, sc), events);
    text := DrawEvents(i, sc, events);
  }

  datatype Drawing = Drawing(lines: seq<string>) | IndexError

  /** The bodies of all lines of an instruction. The compact form looks at its first
      event, and fails if there is none. */
  method DrawInst(i: Inst, sc: Scale, stores: bool) returns (r: Drawing)
    requires sc.Valid()
    ensures r.IndexError? <==>
            NumLines(i, sc, stores) == 1 && forall s: Stage | s < StageCount(stores) :: !OnLine(i, sc, stores, 0, s)
    ensures r.Drawing? ==>
            && |r.lines| == NumLines(i, sc, stores)
            && forall n | 0 <= n < |r.lines| :: r.lines[n] == LineText(i, sc, stores, n)
  {
    OneLineWhenCompact(i, sc, stores);
    var numLines := NumLines(i, sc, stores);
    BlankLine(i, sc, stores);
    if numLines == 1 && StagesOn(i, sc, stores, 0, StageCount(stores)) == [] {
      return IndexError;
    }
    var lines := DrawLines(i, sc, stores, numLines);
    r := Drawing(lines);
  }

  lemma BlankLine(i: Inst, sc: Scale, stores: bool)
    requires sc.Valid()
    ensures StagesOn(i, sc, stores, 0, StageCount(stores)) == [] <==>
            forall s: Stage | s < StageCount(stores) :: !OnLine(i, sc, stores, 0, s)
  {
    var stages := StagesOn(i, sc, stores, 0, StageCount(stores));
    if stages != [] {
      assert stages[0] in stages;
    }
  }

  /** The texts of the first `n` lines. */
  function LineTexts(i: Inst, sc: Scale, stores: bool, n: nat): (r: seq<string>)
    requires sc.Valid()
    ensures |r| == n && forall k | 0 <= k < n :: r[k] == LineText(i, sc, stores, k)
  {
    if n == 0 then [] else LineTexts(i, sc, stores, n - 1) + [LineText(i, sc, stores, n - 1)]
  }

  method DrawLines(i: Inst, sc: Scale, stores: bool, numLines: nat) returns (lines: seq<string>)
    requires sc.Valid()
    ensures lines == LineTexts(i, sc, stores, numLines)
  {
    lines := [];
    for n := 0 to numLines
      invariant lines == LineTexts(i, sc, stores, n)
    {
      var text := DrawLine(i, sc, stores, n);
      lines := lines + [text];
    }
  }

  /** An instruction fetched first is always drawn. */
  lemma FetchIsDrawn(i: Inst, sc: Scale, stores: bool)
    requires sc.Valid() && FetchedFirst(i, stores)
    ensures OnLine(i, sc, stores, 0, 0)
  {
    BaseBelowFetch(i, sc);
    OneLineWhenCompact(i, sc, stores);
  }

  // ---------- Properties of a line ----------

  predicate ColumnsRise(cells: seq<Cell>) {
    forall a, b | 0 <= a < b < |cells| :: cells[a].column <= cells[b].column
  }

  predicate ColumnsFit(cells: seq<Cell>, width: int) {
    forall a | 0 <= a < |cells| :: 0 <= cells[a].column < width
  }

  function Columns(cells: seq<Cell>): set<int> {
    set a | 0 <= a < |cells| :: cells[a].column
  }

  lemma ColumnsOfRest(cells: seq<Cell>)
    requires cells != []
    ensures Columns(cells) == Columns(cells[1..]) + {cells[0].column}
  {
    forall a | 0 <= a < |cells[1..]| ensures cells[1..][a].column in Columns(cells) {
      assert cells[a + 1] == cells[1..][a];
    }
    forall a | 0 < a < |cells| ensures cells[a].column in Columns(cells[1..]) {
      assert cells[1..][a - 1] == cells[a];
    }
  }

  lemma RestAbove(cells: seq<Cell>)
    requires ColumnsRise(cells) && cells != []
    ensures forall x | x in Columns(cells[1..]) - {cells[0].column} :: x > cells[0].column
  {
    var tail := cells[1..];
    forall x | x in Columns(tail) - {cells[0].column} ensures x > cells[0].column {
      var a :| 0 <= a < |tail| && tail[a].column == x;
      assert cells[a + 1].column == x;
    }
  }

  lemma ColumnsCount(cells: seq<Cell>, last: int)
    requires ColumnsRise(cells) && cells != [] && cells[0].column >= last
    ensures var c := cells[0].column;
            |Columns(cells) - {last}| == |Columns(cells[1..]) - {c}| + (if c > last then 1 else 0)
  {
    ColumnsOfRest(cells);
    RestAbove(cells);
    CountWith(Columns(cells[1..]), cells[0].column, last);
  }

  lemma CountWith(rest: set<int>, c: int, last: int)
    requires c >= last && forall x | x in rest - {c} :: x > c
    ensures |(rest + {c}) - {last}| == |rest - {c}| + (if c > last then 1 else 0)
  {
    assert (rest + {c}) - {last} == if c > last then (rest - {c}) + {c} else rest - {c};
  }

  /** How many dots are written before the next letter. */
  function Gap(cells: seq<Cell>, pos: int): int
    requires cells != []
  {
    if cells[0].column >= pos then cells[0].column - pos else 0
  }

  /** A line of rising columns has one character per column and one more for every
      cell that shares its column with an earlier one. */
  lemma {:induction false} DrawLength(cells: seq<Cell>, last: int, width: int, dot: char)
    requires ColumnsRise(cells) && ColumnsFit(cells, width) && -1 <= last < width
    requires cells != [] ==> cells[0].column >= last
    ensures |Draw(cells, last + 1, width, dot)| == width - last - 1 + |cells| - |Columns(cells) - {last}|
  {
    if cells == [] {
      assert Columns(cells) - {last} == {};
    } else {
      var c, rest := cells[0].column, cells[1..];
      ColumnsCount(cells, last);
      RestFits(cells, width);
      DrawLength(rest, c, width, dot);
      DrawFirstLength(cells, last + 1, width, dot);
    }
  }

  lemma DrawFirstLength(cells: seq<Cell>, pos: int, width: int, dot: char)
    requires cells != []
    ensures |Draw(cells, pos, width, dot)| == Gap(cells, pos) + 1 + |Draw(cells[1..], cells[0].column + 1, width, dot)|
  {
  }

  lemma RestFits(cells: seq<Cell>, width: int)
    requires ColumnsRise(cells) && ColumnsFit(cells, width) && cells != []
    ensures ColumnsRise(cells[1..]) && ColumnsFit(cells[1..], width)
    ensures |cells| > 1 ==> cells[1..][0].column >= cells[0].column
  {
    assert |cells| > 1 ==> cells[1..][0] == cells[1] && cells[0].column <= cells[1].column;
  }

  lemma PositionFits(p: int, sc: Scale)
    requires sc.Valid() && 0 <= p < sc.Span()
    ensures 0 <= p / sc.cycle < sc.width
  {
    DivBounds(p, sc.cycle);
    if p / sc.cycle >= sc.width {
      MulMonotone(sc.width, p / sc.cycle, sc.cycle);
    }
    if p / sc.cycle < 0 {
      MulMonotone(p / sc.cycle, -1, sc.cycle);
    }
  }

  lemma CellsFit(i: Inst, sc: Scale, stages: seq<Stage>)
    requires sc.Valid()
    ensures ColumnsFit(CellsOf(i, sc, stages), sc.width)
  {
    if stages != [] {
      CellsFit(i, sc, stages[1..]);
      PositionFits(Position(i, sc, stages[0]), sc);
    }
  }

  lemma CellsSource(i: Inst, sc: Scale, stages: seq<Stage>, c: Cell) returns (s: Stage)
    requires sc.Valid() && c in CellsOf(i, sc, stages)
    ensures s in stages && Shown(i, s) && c == CellOf(i, sc, s)
  {
    if Shown(i, stages[0]) && c == CellOf(i, sc, stages[0]) {
      s := stages[0];
    } else {
      s := CellsSource(i, sc, stages[1..], c);
    }
  }

  lemma EarlierColumn(i: Inst, sc: Scale, a: Stage, b: Stage)
    requires sc.Valid() && EventKey(i, sc)(a) <= EventKey(i, sc)(b)
    ensures CellOf(i, sc, a).column <= CellOf(i, sc, b).column
  {
    DivMonotone(Position(i, sc, a), Position(i, sc, b), sc.cycle);
  }

  lemma CellsRise(i: Inst, sc: Scale, stages: seq<Stage>)
    requires sc.Valid() && Ordered(EventKey(i, sc), stages)
    ensures ColumnsRise(CellsOf(i, sc, stages))
  {
    if stages != [] {
      CellsRise(i, sc, stages[1..]);
      forall c | c in CellsOf(i, sc, stages[1..]) ensures CellOf(i, sc, stages[0]).column <= c.column {
        var s := CellsSource(i, sc, stages[1..], c);
        EarlierColumn(i, sc, stages[0], s);
      }
      var rest := CellsOf(i, sc, stages[1..]);
      assert forall a | 0 <= a < |rest| :: rest[a] in rest;
    }
  }

  /** Main result: every line has the width of the drawing, plus one character for every
      event that shares its column with another one. */
  lemma {:induction false} LineLength(i: Inst, sc: Scale, stores: bool, line: int)
    requires sc.Valid()
    ensures var cells := LineCells(i, sc, stores, line);
            |LineText(i, sc, stores, line)| == sc.width + |cells| - |Columns(cells)|
  {
    var stages, cells := LineStages(i, sc, stores, line), LineCells(i, sc, stores, line);
    SortOrdered(EventKey(i, sc), StagesOn(i, sc, stores, line, StageCount(stores)));
    CellsRise(i, sc, stages);
    CellsFit(i, sc, stages);
    DrawLength(cells, -1, sc.width, Dot(i));
    assert Columns(cells) - {-1} == Columns(cells);
  }

  predicate ColumnsDiffer(cells: seq<Cell>) {
    forall a, b | 0 <= a < b < |cells| :: cells[a].column != cells[b].column
  }

  lemma TailCells(cells: seq<Cell>, width: int)
    requires ColumnsRise(cells) && ColumnsFit(cells, width) && ColumnsDiffer(cells) && cells != []
    ensures ColumnsRise(cells[1..]) && ColumnsFit(cells[1..], width) && ColumnsDiffer(cells[1..])
    ensures |cells| > 1 ==> cells[1..][0].column > cells[0].column
  {
    assert |cells| > 1 ==> cells[0].column <= cells[1].column;
  }

  lemma {:induction false} DrawContent(cells: seq<Cell>, pos: int, width: int, dot: char, k: int)
    requires ColumnsRise(cells) && ColumnsFit(cells, width) && ColumnsDiffer(cells)
    requires cells != [] ==> cells[0].column >= pos
    requires 0 <= pos <= k < width
    ensures |Draw(cells, pos, width, dot)| == width - pos
    ensures forall a | 0 <= a < |cells| && cells[a].column == k :: Draw(cells, pos, width, dot)[k - pos] == cells[a].letter
    ensures (forall a | 0 <= a < |cells| :: cells[a].column != k) ==> Draw(cells, pos, width, dot)[k - pos] == dot
  {
    if cells != [] {
      var c := cells[0].column;
      TailCells(cells, width);
      if k > c {
        DrawContent(cells[1..], c + 1, width, dot, k);
        assert forall a | 0 < a < |cells| :: cells[a] == cells[1..][a - 1];
      } else if c + 1 < width {
        DrawContent(cells[1..], c + 1, width, dot, c + 1);
      } else {
        assert |cells| == 1;
      }
    }
  }

  /** Without shared columns, each column shows its event's letter, or a dot. */
  lemma {:induction false} LineContent(i: Inst, sc: Scale, stores: bool, line: int, k: int)
    requires sc.Valid() && ColumnsDiffer(LineCells(i, sc, stores, line)) && 0 <= k < sc.width
    ensures var text, cells := LineText(i, sc, stores, line), LineCells(i, sc, stores, line);
            && |text| == sc.width
            && (forall a | 0 <= a < |cells| && cells[a].column == k :: text[k] == cells[a].letter)
            && ((forall a | 0 <= a < |cells| :: cells[a].column != k) ==> text[k] == if i.retire == 0 then '=' else '.')
  {
    var stages, cells := LineStages(i, sc, stores, line), LineCells(i, sc, stores, line);
    SortOrdered(EventKey(i, sc), StagesOn(i, sc, stores, line, StageCount(stores)));
    CellsRise(i, sc, stages);
    CellsFit(i, sc, stages);
    DrawContent(cells, 0, sc.width, Dot(i), k);
  }

  lemma LettersDiffer(a: Stage, b: Stage)
    requires Letter(a) == Letter(b)
    ensures a == b
  {
  }

  lemma CellsInclude(i: Inst, sc: Scale, stages: seq<Stage>, s: Stage)
    requires sc.Valid() && s in stages && Shown(i, s)
    ensures CellOf(i, sc, s) in CellsOf(i, sc, stages)
  {
    if s != stages[0] {
      CellsInclude(i, sc, stages[1..], s);
    }
  }

  lemma LineStagesMembers(i: Inst, sc: Scale, stores: bool, line: int, s: Stage)
    requires sc.Valid()
    ensures s in LineStages(i, sc, stores, line) <==> s < StageCount(stores) && OnLine(i, sc, stores, line, s)
  {
    var stages := StagesOn(i, sc, stores, line, StageCount(stores));
    SortElements(EventKey(i, sc), stages);
    assert s in stages <==> s in multiset(stages);
    assert s in LineStages(i, sc, stores, line) <==> s in multiset(LineStages(i, sc, stores, line));
  }

  /** A character other than a dot is in the text exactly if it is the letter of a cell. */
  lemma {:induction false} DrawLetters(cells: seq<Cell>, pos: int, width: int, dot: char, x: char)
    requires x != dot
    ensures x in Draw(cells, pos, width, dot) <==> exists c :: c in cells && c.letter == x
  {
    if cells != [] {
      DrawLetters(cells[1..], cells[0].column + 1, width, dot, x);
      assert forall c :: c in cells <==> c == cells[0] || c in cells[1..];
    }
  }

  lemma LetterIsNoDot(i: Inst, stage: Stage)
    ensures Letter(stage) != Dot(i)
  {
  }

  // ---------- Where a line has its events ----------

  /** The column of a tick is its cycle modulo the width. */
  lemma ColumnOfTick(t: int, width: int, cycle: int)
    requires width > 0 && cycle > 0
    ensures width * cycle > 0 && t % (width * cycle) / cycle == t / cycle % width
  {
    var span := width * cycle;
    Positive(width, cycle);
    var turn, p := t / span, t % span;
    var column := p / cycle;
    PositionFits(p, Scale(width, cycle));
    DivBounds(p, cycle);
    assert (turn * width + column) * cycle == turn * span + column * cycle;
    SameLine(t, cycle, turn * width + column);
    SameLine(t / cycle, width, turn);
  }

  lemma CellColumn(i: Inst, sc: Scale, s: Stage)
    requires sc.Valid()
    ensures CellOf(i, sc, s) == Cell(TickOf(i, s) / sc.cycle % sc.width, Letter(s))
  {
    ColumnOfTick(TickOf(i, s), sc.width, sc.cycle);
  }

  /** The cycle of the column, counted from `start`, contains the tick. */
  predicate InColumn(start: int, sc: Scale, column: int, t: int) {
    start + column * sc.cycle <= t < start + column * sc.cycle + sc.cycle
  }

  lemma ColumnFrom(sc: Scale, turn: int, t: int)
    requires sc.Valid() && turn * sc.Span() <= t < turn * sc.Span() + sc.Span()
    ensures InColumn(turn * sc.Span(), sc, t / sc.cycle % sc.width, t)
  {
    var p := t - turn * sc.Span();
    SameLine(t, sc.Span(), turn);
    assert p == t % sc.Span();
    ColumnOfTick(t, sc.width, sc.cycle);
    DivBounds(p, sc.cycle);
  }

  /** An event's column counts the cycles from the start of its line; in the compact form, what
      would be on the next line is drawn over the first. */
  lemma ColumnOnLine(i: Inst, sc: Scale, stores: bool, line: int, stage: Stage)
    requires sc.Valid() && OnLine(i, sc, stores, line, stage)
    ensures var t, start := TickOf(i, stage), LineStart(i, sc, line);
            var wraps := t >= start + sc.Span();
            && (wraps ==> NumLines(i, sc, stores) == 1)
            && InColumn(if wraps then start + sc.Span() else start, sc, t / sc.cycle % sc.width, t)
  {
    var t, span, turn := TickOf(i, stage), sc.Span(), i.fetch / sc.Span() + line;
    BaseBelowFetch(i, sc);
    Turns(i.fetch / span, line, span);
    Turns(turn, 1, span);
    ColumnFrom(sc, if t >= turn * span + span then turn + 1 else turn, t);
  }

  lemma Turns(a: int, b: int, d: int)
    ensures a * d + b * d == (a + b) * d
  {
  }

  /** Where the letter of the cell `k` is: behind the letters that share a column with an
      earlier one. */
  function LetterIndex(cells: seq<Cell>, k: nat): int
    requires k < |cells|
  {
    cells[k].column + (k + 1 - |Columns(cells[..k + 1])|)
  }

  /** How many columns other than `last` the first cells up to `k` have. */
  function NewColumns(cells: seq<Cell>, last: int, k: nat): nat
    requires k < |cells|
  {
    |Columns(cells[..k + 1]) - {last}|
  }

  /** How many characters `Draw` writes before the letter of the cell `k`. */
  function Ahead(cells: seq<Cell>, pos: int, k: nat): (r: nat)
    requires k < |cells|
  {
    Gap(cells, pos) + if k == 0 then 0 else 1 + Ahead(cells[1..], cells[0].column + 1, k - 1)
  }

  lemma FirstColumn(cells: seq<Cell>, last: int)
    requires cells != [] && cells[0].column >= last
    ensures NewColumns(cells, last, 0) == if cells[0].column > last then 1 else 0
  {
    var c := cells[0].column;
    assert cells[..1] == [cells[0]] && Columns(cells[..1]) == {c};
    assert {c} - {last} == if c > last then {c} else {};
  }

  lemma PrefixRises(cells: seq<Cell>, k: nat)
    requires ColumnsRise(cells) && k <= |cells|
    ensures ColumnsRise(cells[..k])
  {
  }

  lemma NextColumns(cells: seq<Cell>, last: int, k: nat)
    requires ColumnsRise(cells) && 0 < k < |cells| && cells[0].column >= last
    ensures var c := cells[0].column;
            NewColumns(cells, last, k) == NewColumns(cells[1..], c, k - 1) + if c > last then 1 else 0
  {
    PrefixRises(cells, k + 1);
    PrefixOfRest(cells, k);
    ColumnsCount(cells[..k + 1], last);
  }

  lemma PrefixOfRest(cells: seq<Cell>, k: nat)
    requires k < |cells|
    ensures cells[..k + 1][1..] == cells[1..][..k] && cells[..k + 1][0] == cells[0]
  {
  }

  lemma {:induction false} AheadCounted(cells: seq<Cell>, last: int, width: int, k: nat)
    requires ColumnsRise(cells) && ColumnsFit(cells, width) && k < |cells| && cells[0].column >= last
    ensures Ahead(cells, last + 1, k) == cells[k].column - last + k - NewColumns(cells, last, k)
  {
    if k == 0 {
      FirstColumn(cells, last);
    } else {
      var c, rest := cells[0].column, cells[1..];
      RestFits(cells, width);
      AheadCounted(rest, c, width, k - 1);
      NextColumns(cells, last, k);
      AheadNext(cells, last, k);
    }
  }

  lemma AheadNext(cells: seq<Cell>, last: int, k: nat)
    requires 0 < k < |cells| && cells[0].column >= last
    ensures var c := cells[0].column;
            Ahead(cells, last + 1, k) == Ahead(cells[1..], c + 1, k - 1) + c - last + if c > last then 0 else 1
    ensures cells[1..][k - 1] == cells[k]
  {
  }

  lemma {:induction false} DrawAt(cells: seq<Cell>, pos: int, width: int, dot: char, k: nat)
    requires k < |cells|
    ensures Ahead(cells, pos, k) < |Draw(cells, pos, width, dot)|
    ensures Draw(cells, pos, width, dot)[Ahead(cells, pos, k)] == cells[k].letter
  {
    if k > 0 {
      DrawAt(cells[1..], cells[0].column + 1, width, dot, k - 1);
    }
  }

  /** Main result: where each letter of a line is, whatever columns are shared. */
  lemma LetterAt(i: Inst, sc: Scale, stores: bool, line: int, k: nat)
    requires sc.Valid() && k < |LineCells(i, sc, stores, line)|
    ensures var text, cells := LineText(i, sc, stores, line), LineCells(i, sc, stores, line);
            0 <= LetterIndex(cells, k) < |text| && text[LetterIndex(cells, k)] == cells[k].letter
  {
    var stages, cells := LineStages(i, sc, stores, line), LineCells(i, sc, stores, line);
    SortOrdered(EventKey(i, sc), StagesOn(i, sc, stores, line, StageCount(stores)));
    CellsRise(i, sc, stages);
    CellsFit(i, sc, stages);
    AheadCounted(cells, -1, sc.width, k);
    DrawAt(cells, 0, sc.width, Dot(i), k);
    assert Columns(cells[..k + 1]) - {-1} == Columns(cells[..k + 1]);
  }

  /** Main result: the letter of a stage that is reached and not merged is in the text of
      exactly one line, whatever other stages share its column; its column there is its cycle
      modulo the width, and without shared columns that is where the letter stands. */
  lemma {:induction false} EventInOneLine(i: Inst, sc: Scale, stores: bool, stage: Stage, line: int)
    requires sc.Valid() && FetchedFirst(i, stores) && stage < StageCount(stores)
    requires TickOf(i, stage) != 0 && Shown(i, stage)
    requires 0 <= line < NumLines(i, sc, stores)
    ensures Letter(stage) in LineText(i, sc, stores, line) <==> line == LineOf(i, sc, stores, stage)
    ensures line == LineOf(i, sc, stores, stage) ==>
              && var column, cells := TickOf(i, stage) / sc.cycle % sc.width, LineCells(i, sc, stores, line);
              && Cell(column, Letter(stage)) in cells
              && (ColumnsDiffer(cells) ==>
                    && column < |LineText(i, sc, stores, line)|
                    && LineText(i, sc, stores, line)[column] == Letter(stage))
  {
    DrawnOnce(i, sc, stores, stage, line);
    LineStagesMembers(i, sc, stores, line, stage);
    var stages, cells := LineStages(i, sc, stores, line), LineCells(i, sc, stores, line);
    LetterIsNoDot(i, stage);
    DrawLetters(cells, 0, sc.width, Dot(i), Letter(stage));
    CellColumn(i, sc, stage);
    if line == LineOf(i, sc, stores, stage) {
      CellsInclude(i, sc, stages, stage);
      if ColumnsDiffer(cells) {
        LineContent(i, sc, stores, line, TickOf(i, stage) / sc.cycle % sc.width);
      }
    } else if c :| c in cells && c.letter == Letter(stage) {
      var s := CellsSource(i, sc, stages, c);
      LettersDiffer(s, stage);
    }
  }

  /** The last line is not blank: there are no more lines than needed. */
  lemma LastLineUsed(i: Inst, sc: Scale, stores: bool) returns (s: Stage)
    requires sc.Valid() && FetchedFirst(i, stores)
    ensures s < StageCount(stores) && OnLine(i, sc, stores, NumLines(i, sc, stores) - 1, s)
  {
    OneLineWhenCompact(i, sc, stores);
    s :| s < StageCount(stores) && TickOf(i, s) == LastTick(i, stores);
    assert TickOf(i, 0) == i.fetch;
    DrawnOnce(i, sc, stores, s, NumLines(i, sc, stores) - 1);
  }

  // ---------- Names and letters of the stages ----------

  function NameOf(stage: Stage): string {
    ["fetch", "decode", "rename", "dispatch", "issue", "complete", "retire", "store"][stage]
  }

  /** Alphabetical order. */
  predicate Precedes(a: string, b: string) {
    b != [] && (a == [] || a[0] < b[0] || (a[0] == b[0] && Precedes(a[1..], b[1..])))
  }

  lemma DifferentInitials(a: string, b: string)
    requires a != [] && b != [] && a[0] != b[0]
    ensures Precedes(a, b) <==> a[0] < b[0]
  {
  }

  lemma {:induction false} SamePrefix(p: string, a: string, b: string)
    ensures Precedes(p + a, p + b) <==> Precedes(a, b)
  {
    if p == [] {
      assert p + a == a && p + b == b;
    } else {
      SamePrefix(p[1..], a, b);
      assert (p + a)[1..] == p[1..] + a && (p + b)[1..] == p[1..] + b;
    }
  }

  lemma {:induction false} NotItself(a: string)
    ensures !Precedes(a, a)
  {
    if a != [] {
      NotItself(a[1..]);
    }
  }

  /** Events at the same position are sorted by the names of their stages. */
  lemma RanksAreAlphabetical(a: Stage, b: Stage)
    ensures NameRank(a) < NameRank(b) <==> Precedes(NameOf(a), NameOf(b))
  {
    if a == b {
      NotItself(NameOf(a));
    } else if NameOf(a)[0] != NameOf(b)[0] {
      DifferentInitials(NameOf(a), NameOf(b));
    } else {
      SameInitials(a, b);
    }
  }

  lemma SameInitials(a: Stage, b: Stage)
    requires a != b && NameOf(a)[0] == NameOf(b)[0]
    ensures NameRank(a) < NameRank(b) <==> Precedes(NameOf(a), NameOf(b))
  {
    var p := if a == 1 || a == 3 then "d" else "re";
    assert NameOf(a) == p + NameOf(a)[|p|..] && NameOf(b) == p + NameOf(b)[|p|..];
    SamePrefix(p, NameOf(a)[|p|..], NameOf(b)[|p|..]);
    DifferentInitials(NameOf(a)[|p|..], NameOf(b)[|p|..]);
  }

  /** The cells of a line are in the order of their ticks within the span of a line, and of the
      names of their stages where those are equal. */
  lemma StagesInOrder(i: Inst, sc: Scale, stores: bool, line: int, a: nat, b: nat)
    requires sc.Valid() && a < b < |LineStages(i, sc, stores, line)|
    ensures var stages, span := LineStages(i, sc, stores, line), sc.width * sc.cycle;
            && span > 0
            && var s, t := stages[a], stages[b];
            || TickOf(i, s) % span < TickOf(i, t) % span
            || (TickOf(i, s) % span == TickOf(i, t) % span && (s == t || Precedes(NameOf(s), NameOf(t))))
  {
    var stages := LineStages(i, sc, stores, line);
    SortOrdered(EventKey(i, sc), StagesOn(i, sc, stores, line, StageCount(stores)));
    Positive(sc.width, sc.cycle);
    RanksAreAlphabetical(stages[a], stages[b]);
    RanksDiffer(stages[a], stages[b]);
  }

  lemma RanksDiffer(a: Stage, b: Stage)
    ensures 0 <= NameRank(a) < 8 && (NameRank(a) == NameRank(b) ==> a == b)
  {
  }

  /** A stage is drawn as a letter of its name that no other stage has. */
  lemma LetterOfName(stage: Stage)
    ensures Letter(stage) in NameOf(stage) && forall other: Stage :: Letter(other) == Letter(stage) ==> other == stage
  {
  }
}
