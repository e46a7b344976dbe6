/** The ASCII form of instruction dependency records: the printer of the decoding tool
    and the parser of the encoding tool. */
module DepTrace {
  import opened Basics
  import opened Text

  type U64 = n: nat | n < 0x1_0000_0000_0000_0000
  type U32 = n: nat | n < 0x1_0000_0000

  datatype RecordType = INVALID | LOAD | STORE | COMP

  datatype Record = Record(
    seqNum: U64, kind: RecordType, pAddr: Option<U64>, size: Option<U32>, flags: Option<U32>,
    robDep: seq<U64>, compDelay: U64, regDep: seq<U64>, weight: Option<U32>, pc: Option<U64>,
    vAddr: Option<U64>, asid: Option<U32>)

  function TypeName(k: RecordType): string {
    match k
    case INVALID => "INVALID"
    case LOAD => "LOAD"
    case STORE => "STORE"
    case COMP => "COMP"
  }

  function TypeOf(name: string): Option<RecordType> {
    if name == "INVALID" then Some(INVALID)
    else if name == "LOAD" then Some(LOAD)
    else if name == "STORE" then Some(STORE)
    else if name == "COMP" then Some(COMP)
    else None
  }

  // ---------- Printing ----------

  function Field(x: Option<nat>): seq<string> {
    if x.Some? then [Decimal(x.value)] else []
  }

  function Or(x: Option<nat>, default: nat): nat {
    if x.Some? then x.value else default
  }

  /** The comma-separated part in front of the dependencies. */
  function InfoFields(r: Record): seq<string> {
    [Decimal(r.seqNum), Decimal(Or(r.pc, 0)), Decimal(Or(r.weight, 1)), TypeName(r.kind)]
    + Field(r.pAddr) + Field(r.size) + Field(r.flags) + [Decimal(r.compDelay)]
  }

  /** Every dependency is preceded by a comma. */
  function DepText(ds: seq<U64>): string {
    if ds == [] then "" else DepText(ds[..|ds| - 1]) + "," + Decimal(ds[|ds| - 1])
  }

  function Line(r: Record): string {
    Join([Join(InfoFields(r), ','), DepText(r.robDep), DepText(r.regDep)], ':')
  }

  lemma LineShape(r: Record)
    ensures Line(r) == Join(InfoFields(r), ',') + ":" + (DepText(r.robDep) + ":" + DepText(r.regDep))
  {
    var a, b, c := Join(InfoFields(r), ','), DepText(r.robDep), DepText(r.regDep);
    assert [a, b, c][1..] == [b, c] && [b, c][1..] == [c];
    assert Join([b, c], ':') == b + ":" + c;
  }

  lemma JoinMore(a: seq<string>, x: string)
    requires |a| >= 1
    ensures Join(a + [x], ',') == Join(a, ',') + "," + x
  {
    if |a| > 1 {
      JoinMore(a[1..], x);
      assert (a + [x])[1..] == a[1..] + [x];
    }
  }

  method WriteField(text: string, x: Option<nat>, ghost done: seq<string>) returns (text': string)
    requires |done| >= 1 && text == Join(done, ',')
    ensures text' == Join(done + Field(x), ',')
  {
    text' := text;
    if x.Some? {
      JoinMore(done, Decimal(x.value));
      text' := text' + "," + Decimal(x.value);
    } else {
      assert done + Field(x) == done;
    }
  }

  method WriteDeps(ds: seq<U64>) returns (text: string)
    ensures text == DepText(ds)
  {
    text := "";
    for n := 0 to |ds|
      invariant text == DepText(ds[..n])
    {
      assert ds[..n + 1][..n] == ds[..n];
      text := text + "," + Decimal(ds[n]);
    }
    assert ds[..|ds|] == ds;
  }

  /** Writes one record field by field. */
  method PrintRecord(r: Record) returns (text: string)
    ensures text == Line(r) + "\n"
  {
    text := Decimal(r.seqNum);
    ghost var done := [Decimal(r.seqNum)];
    text := WriteField(text, Some(Or(r.pc, 0)), done);
    done := done + [Decimal(Or(r.pc, 0))];
    text := WriteField(text, Some(Or(r.weight, 1)), done);
    done := done + [Decimal(Or(r.weight, 1))];
    JoinMore(done, TypeName(r.kind));
    text := text + "," + TypeName(r.kind);
    done := done + [TypeName(r.kind)];
    text := WriteField(text, r.pAddr, done);
    done := done + Field(r.pAddr);
    text := WriteField(text, r.size, done);
    done := done + Field(r.size);
    text := WriteField(text, r.flags, done);
    done := done + Field(r.flags);
    text := WriteField(text, Some(r.compDelay), done);
    done := done + [Decimal(r.compDelay)];
    assert done == InfoFields(r);
    var rob := WriteDeps(r.robDep);
    var reg := WriteDeps(r.regDep);
    text := text + ":" + rob + ":" + reg;
    LineShape(r);
    text := text + "\n";
  }

  // ---------- Parsing ----------

  function ParseU64(s: string): Option<U64> {
    var n := ParseNat(s);
    if n.Some? && n.value < 0x1_0000_0000_0000_0000 then Some(n.value) else None
  }

  function ParseU32(s: string): Option<U32> {
    var n := ParseNat(s);
    if n.Some? && n.value < 0x1_0000_0000 then Some(n.value) else None
  }

  /** Empty pieces are skipped. */
  function ParseDeps(pieces: seq<string>): Option<seq<U64>> {
    if pieces == [] then Some([])
    else
      var init := ParseDeps(pieces[..|pieces| - 1]);
      var last := pieces[|pieces| - 1];
      if init.None? || last == "" then init
      else
        var d := ParseU64(last);
        if d.Some? then Some(init.value + [d.value]) else None
  }

  predicate IsMemory(k: RecordType) {
    k.LOAD? || k.STORE?
  }

  /** The part of the line in front of the first colon. */
  function ParseInfo(info: seq<string>): Option<Record> {
    if |info| < 5 then None
    else
      var seqNum, pc, weight := ParseU64(info[0]), ParseU64(info[1]), ParseU32(info[2]);
      var kind := TypeOf(info[3]);
      if seqNum.None? || pc.None? || weight.None? || kind.None? || kind.value.INVALID? then None
      else if IsMemory(kind.value) then
        if |info| < 8 then None
        else
          var pAddr, size, flags, comp := ParseU64(info[4]), ParseU32(info[5]), ParseU32(info[6]), ParseU64(info[7]);
          if pAddr.None? || size.None? || flags.None? || comp.None? then None
          else Some(Record(seqNum.value, kind.value, pAddr, size, flags, [], comp.value, [], weight, pc, None, None))
      else
        var comp := ParseU64(info[4]);
        if comp.None? then None
        else Some(Record(seqNum.value, kind.value, None, None, None, [], comp.value, [], weight, pc, None, None))
  }

  function Parse(line: string): Option<Record> {
    var parts := Split(Strip(line), ':');
    if |parts| != 3 then None
    else
      var r := ParseInfo(Split(parts[0], ','));
      var rob := ParseDeps(Split(Strip(parts[1]), ','));
      var reg := ParseDeps(Split(parts[2], ','));
      if r.None? || rob.None? || reg.None? then None
      else Some(r.value.(robDep := rob.value, regDep := reg.value))
  }

  method ReadDeps(pieces: seq<string>) returns (deps: Option<seq<U64>>)
    ensures deps == ParseDeps(pieces)
  {
    var ds: seq<U64> := [];
    for n := 0 to |pieces|
      invariant ParseDeps(pieces[..n]) == Some(ds)
    {
      assert pieces[..n + 1][..n] == pieces[..n];
      if pieces[n] != "" {
        var d := ParseU64(pieces[n]);
        if d.None? {
          DepsFail(pieces, n + 1);
          return None;
        }
        ds := ds + [d.value];
      }
    }
    assert pieces[..|pieces|] == pieces;
    deps := Some(ds);
  }

  lemma DepsFail(pieces: seq<string>, n: nat)
    requires n <= |pieces| && ParseDeps(pieces[..n]).None?
    ensures ParseDeps(pieces).None?
    decreases |pieces| - n
  {
    if n < |pieces| {
      assert pieces[..n + 1][..n] == pieces[..n];
      DepsFail(pieces, n + 1);
    } else {
      assert pieces[..n] == pieces;
    }
  }

  /** Reads one line of the trace. */
  method ReadRecord(line: string) returns (r: Option<Record>)
    ensures r == Parse(line)
  {
    var parts := Split(Strip(line), ':');
    if |parts| != 3 {
      return None;
    }
    var info := ParseInfo(Split(parts[0], ','));
    var rob := ReadDeps(Split(Strip(parts[1]), ','));
    var reg := ReadDeps(Split(parts[2], ','));
    if info.None? || rob.None? || reg.None? {
      return None;
    }
    r := Some(info.value.(robDep := rob.value, regDep := reg.value));
  }

  // ---------- Round trip ----------

  /** The records the text can carry: a memory access with all its request fields, or a
      computation with none. */
  predicate Printable(r: Record) {
    && !r.kind.INVALID? && r.vAddr.None? && r.asid.None?
    && (if r.kind == LOAD || r.kind == STORE then r.pAddr.Some? && r.size.Some? && r.flags.Some?
        else r.pAddr.None? && r.size.None? && r.flags.None?)
  }

  /** What is read back: the defaults for a missing pc and weight are written out. */
  function Normal(r: Record): Record {
    r.(pc := Some(Or(r.pc, 0)), weight := Some(Or(r.weight, 1)))
  }

  lemma DepPieces(ds: seq<U64>) returns (pieces: seq<string>)
    ensures |pieces| >= 1 && pieces[0] == "" && DepText(ds) == Join(pieces, ',')
    ensures forall i | 0 <= i < |pieces| :: AllDigits(pieces[i])
    ensures ParseDeps(pieces) == Some(ds)
  {
    if ds == [] {
      pieces := [""];
      assert [""][..0] == [];
      assert ParseDeps([""]) == ParseDeps([]);
    } else {
      var init := DepPieces(ds[..|ds| - 1]);
      var last := Decimal(ds[|ds| - 1]);
      pieces := init + [last];
      JoinMore(init, last);
      assert pieces[..|pieces| - 1] == init;
      ParseDecimal(ds[|ds| - 1]);
      assert ParseU64(last) == Some(ds[|ds| - 1]);
      assert ds == ds[..|ds| - 1] + [ds[|ds| - 1]];
    }
  }

  lemma DepsReadBack(ds: seq<U64>)
    ensures ParseDeps(Split(DepText(ds), ',')) == Some(ds)
    ensures Without(DepText(ds), ':') && Trimmed(DepText(ds))
  {
    var pieces := DepPieces(ds);
    SplitJoin(pieces, ',');
    DepChars(ds);
  }

  lemma DepChars(ds: seq<U64>)
    ensures forall i | 0 <= i < |DepText(ds)| :: DepText(ds)[i] == ',' || IsDigit(DepText(ds)[i])
  {
  }

  predicate PlainField(s: string) {
    Without(s, ',') && Without(s, ':') && Without(s, '\n') && |s| >= 1
  }

  predicate PlainFields(parts: seq<string>) {
    forall i | 0 <= i < |parts| :: PlainField(parts[i])
  }

  lemma PlainConcat(a: seq<string>, b: seq<string>)
    requires PlainFields(a) && PlainFields(b)
    ensures PlainFields(a + b)
  {
  }

  lemma NumberPlain(n: nat)
    ensures PlainField(Decimal(n))
  {
  }

  lemma NamePlain(k: RecordType)
    ensures PlainField(TypeName(k))
  {
  }

  lemma FieldPlain(x: Option<nat>)
    ensures PlainFields(Field(x))
  {
    if x.Some? {
      NumberPlain(x.value);
    }
  }

  lemma InfoPlain(r: Record)
    ensures PlainFields(InfoFields(r))
  {
    NumberPlain(r.seqNum);
    NumberPlain(Or(r.pc, 0));
    NumberPlain(Or(r.weight, 1));
    NumberPlain(r.compDelay);
    NamePlain(r.kind);
    FieldPlain(r.pAddr);
    FieldPlain(r.size);
    FieldPlain(r.flags);
    var head := [Decimal(r.seqNum), Decimal(Or(r.pc, 0)), Decimal(Or(r.weight, 1)), TypeName(r.kind)];
    PlainConcat(head, Field(r.pAddr));
    PlainConcat(head + Field(r.pAddr), Field(r.size));
    PlainConcat(head + Field(r.pAddr) + Field(r.size), Field(r.flags));
    PlainConcat(head + Field(r.pAddr) + Field(r.size) + Field(r.flags), [Decimal(r.compDelay)]);
  }

  lemma JoinPlain(parts: seq<string>)
    requires |parts| >= 1 && forall i | 0 <= i < |parts| :: Without(parts[i], ':')
    ensures Without(Join(parts, ','), ':')
  {
  }

  lemma LineParts(r: Record)
    ensures Strip(Line(r) + "\n") == Line(r)
    ensures Split(Line(r), ':') == [Join(InfoFields(r), ','), DepText(r.robDep), DepText(r.regDep)]
    ensures Split(Join(InfoFields(r), ','), ',') == InfoFields(r)
  {
    InfoPlain(r);
    SplitJoin(InfoFields(r), ',');
    JoinPlain(InfoFields(r));
    DepsReadBack(r.robDep);
    DepsReadBack(r.regDep);
    var parts := [Join(InfoFields(r), ','), DepText(r.robDep), DepText(r.regDep)];
    SplitJoin(parts, ':');
    LineTrimmed(r);
    StripTrimmed(Line(r));
  }

  lemma LineTrimmed(r: Record)
    ensures Trimmed(Line(r))
  {
    var info, rob, reg := Join(InfoFields(r), ','), DepText(r.robDep), DepText(r.regDep);
    LineShape(r);
    assert info[0] == Decimal(r.seqNum)[0];
    DepChars(r.regDep);
    if reg != "" {
      assert Line(r)[|Line(r)| - 1] == reg[|reg| - 1];
    } else {
      assert Line(r)[|Line(r)| - 1] == ':';
    }
  }

  function Count(x: Option<nat>): nat {
    if x.Some? then 1 else 0
  }

  lemma InfoShape(r: Record)
    ensures var info := InfoFields(r);
            && |info| == 5 + Count(r.pAddr) + Count(r.size) + Count(r.flags)
            && info[0] == Decimal(r.seqNum) && info[1] == Decimal(Or(r.pc, 0)) && info[2] == Decimal(Or(r.weight, 1))
            && info[3] == TypeName(r.kind) && info[|info| - 1] == Decimal(r.compDelay)
            && (|info| == 8 ==> info[4] == Decimal(r.pAddr.value) && info[5] == Decimal(r.size.value)
                                && info[6] == Decimal(r.flags.value))
  {
  }

  lemma InfoIsRead(r: Record)
    requires Printable(r)
    ensures ParseInfo(InfoFields(r)) == Some(Normal(r).(robDep := [], regDep := []))
  {
    InfoShape(r);
    ParseDecimal(r.seqNum);
    ParseDecimal(Or(r.pc, 0));
    ParseDecimal(Or(r.weight, 1));
    ParseDecimal(r.compDelay);
    if IsMemory(r.kind) {
      ParseDecimal(r.pAddr.value);
      ParseDecimal(r.size.value);
      ParseDecimal(r.flags.value);
    }
  }

  lemma InfoIsLost(r: Record)
    requires !Printable(r)
    ensures ParseInfo(InfoFields(r)) != Some(Normal(r).(robDep := [], regDep := []))
  {
    InfoShape(r);
  }

  lemma InfoReadBack(r: Record)
    ensures ParseInfo(InfoFields(r)) == Some(Normal(r).(robDep := [], regDep := [])) <==> Printable(r)
  {
    if Printable(r) {
      InfoIsRead(r);
    } else {
      InfoIsLost(r);
    }
  }

  /** Main result: a printed line reads back as the record it came from, with the default
      pc and weight filled in, exactly if the record is printable. */
  lemma {:induction false} LineReadBack(r: Record)
    ensures Parse(Line(r) + "\n") == Some(Normal(r)) <==> Printable(r)
  {
    LineParts(r);
    DepsReadBack(r.robDep);
    DepsReadBack(r.regDep);
    StripTrimmed(DepText(r.robDep));
    InfoReadBack(r);
    InfoWithoutDeps(InfoFields(r));
  }

  lemma InfoWithoutDeps(info: seq<string>)
    ensures ParseInfo(info).Some? ==> ParseInfo(info).value.robDep == [] && ParseInfo(info).value.regDep == []
  {
  }

  // ---------- Whole files ----------

  /** The lines of a file, each with its line end. */
  function Lines(text: string): seq<string> {
    if text == "" then []
    else if text[0] == '\n' then ["\n"] + Lines(text[1..])
    else
      var rest := Lines(text[1..]);
      if rest == [] then [[text[0]]] else [[text[0]] + rest[0]] + rest[1..]
  }

  function PrintAll(rs: seq<Record>): string {
    if rs == [] then "" else Line(rs[0]) + "\n" + PrintAll(rs[1..])
  }

  function ParseAll(lines: seq<string>): Option<seq<Record>> {
    if lines == [] then Some([])
    else
      var first, rest := Parse(lines[0]), ParseAll(lines[1..]);
      if first.None? || rest.None? then None else Some([first.value] + rest.value)
  }

  function NormalAll(rs: seq<Record>): seq<Record> {
    if rs == [] then [] else [Normal(rs[0])] + NormalAll(rs[1..])
  }

  lemma LinesFirst(line: string, rest: string)
    requires Without(line, '\n')
    ensures Lines(line + "\n" + rest) == [line + "\n"] + Lines(rest)
  {
    var all := line + "\n" + rest;
    if line == "" {
      assert all[1..] == rest && line + "\n" == "\n";
    } else {
      LinesFirst(line[1..], rest);
      assert all[1..] == line[1..] + "\n" + rest;
      var tail := [line[1..] + "\n"] + Lines(rest);
      assert tail[1..] == Lines(rest) && [line[0]] + tail[0] == line + "\n";
    }
  }

  lemma JoinNoNewline(parts: seq<string>, sep: char)
    requires |parts| >= 1 && sep != '\n' && forall i | 0 <= i < |parts| :: Without(parts[i], '\n')
    ensures Without(Join(parts, sep), '\n')
  {
  }

  lemma LineNoNewline(r: Record)
    ensures Without(Line(r), '\n')
  {
    var info := InfoFields(r);
    InfoPlain(r);
    JoinNoNewline(info, ',');
    DepChars(r.robDep);
    DepChars(r.regDep);
    JoinNoNewline([Join(info, ','), DepText(r.robDep), DepText(r.regDep)], ':');
  }

  /** A file of printable records reads back as those records, in order. */
  lemma {:induction false} FileReadBack(rs: seq<Record>)
    requires forall i | 0 <= i < |rs| :: Printable(rs[i])
    ensures ParseAll(Lines(PrintAll(rs))) == Some(NormalAll(rs))
  {
    if rs != [] {
      FileReadBack(rs[1..]);
      LineNoNewline(rs[0]);
      LinesFirst(Line(rs[0]), PrintAll(rs[1..]));
      LineReadBack(rs[0]);
    }
  }
}
