/** Printing a set of years as a list of ranges, and reading such a list. */
module Copyrights {
  import opened Basics
  import opened Text
  import opened Graphs
  import Sorting

  datatype Range = Range(first: int, last: int)

  predicate Covers(r: Range, y: int) {
    r.first <= y <= r.last
  }

  /** Some range of the list covers the year. */
  ghost predicate Denotes(ranges: seq<Range>, y: int) {
    exists k :: 0 <= k < |ranges| && Covers(ranges[k], y)
  }

  predicate Increasing(s: seq<int>) {
    forall i, j | 0 <= i < j < |s| :: s[i] < s[j]
  }

  // ---------- Runs ----------

  /** One more year extends the last run or starts a new one. */
  function Extended(rest: seq<Range>, y: int): (r: seq<Range>)
    ensures r != [] && r[|r| - 1].last == y
  {
    if rest != [] && y == rest[|rest| - 1].last + 1
    then rest[..|rest| - 1] + [Range(rest[|rest| - 1].first, y)]
    else rest + [Range(y, y)]
  }

  /** The runs of consecutive years. */
  function Runs(s: seq<int>): (r: seq<Range>)
    ensures s != [] ==> r != [] && r[|r| - 1].last == s[|s| - 1]
  {
    if s == [] then [] else Extended(Runs(s[..|s| - 1]), s[|s| - 1])
  }

  /** Ranges in increasing order with a gap between any two: the maximal runs. */
  predicate Maximal(ranges: seq<Range>) {
    && (forall k | 0 <= k < |ranges| :: ranges[k].first <= ranges[k].last)
    && forall i, j | 0 <= i < j < |ranges| :: ranges[i].last + 1 < ranges[j].first
  }

  predicate Before(ranges: seq<Range>, y: int) {
    ranges == [] || ranges[|ranges| - 1].last < y
  }

  lemma ExtendedMaximal(rest: seq<Range>, y: int)
    requires Maximal(rest) && Before(rest, y)
    ensures Maximal(Extended(rest, y))
  {
  }

  lemma RunsBefore(s: seq<int>)
    requires Increasing(s) && s != []
    ensures Before(Runs(s[..|s| - 1]), s[|s| - 1])
  {
  }

  lemma {:induction false} RunsAreMaximal(s: seq<int>)
    requires Increasing(s)
    ensures Maximal(Runs(s))
  {
    if s != [] {
      RunsAreMaximal(s[..|s| - 1]);
      RunsBefore(s);
      ExtendedMaximal(Runs(s[..|s| - 1]), s[|s| - 1]);
    }
  }

  lemma {:induction false} RunsDenoteAll(s: seq<int>, x: int)
    requires Increasing(s)
    ensures Denotes(Runs(s), x) <==> x in s
  {
    if s != [] {
      var front, y := s[..|s| - 1], s[|s| - 1];
      RunsDenoteAll(front, x);
      RunsAreMaximal(front);
      RunsBefore(s);
      RunsDenote(Runs(front), y, x);
      assert s == front + [y];
    }
  }

  lemma RunsDenote(rest: seq<Range>, y: int, x: int)
    requires Maximal(rest) && Before(rest, y)
    ensures Denotes(Extended(rest, y), x) <==> Denotes(rest, x) || x == y
  {
    var more := Extended(rest, y);
    if k :| 0 <= k < |rest| && Covers(rest[k], x) {
      assert Covers(more[k], x);
    }
    if x == y {
      assert Covers(more[|more| - 1], x);
    }
    if k :| 0 <= k < |more| && Covers(more[k], x) && x != y {
      assert k < |rest| && Covers(rest[k], x);
    }
  }

  lemma MaximalAt(ranges: seq<Range>, y: int, i: nat, j: nat)
    requires Maximal(ranges) && i < |ranges| && j < |ranges| && Covers(ranges[i], y) && Covers(ranges[j], y)
    ensures i == j
  {
  }

  /** Where a run starts, the year before is missing. */
  lemma GapBefore(ranges: seq<Range>, i: nat)
    requires Maximal(ranges) && i < |ranges|
    ensures Denotes(ranges, ranges[i].first) && !Denotes(ranges, ranges[i].first - 1)
  {
  }

  function Picked(L: seq<Range>, y: int): (k: nat)
    requires Denotes(L, y)
    ensures k < |L| && Covers(L[k], y)
  {
    if Covers(L[0], y) then 0
    else
      assert Denotes(L[1..], y) by {
        var k :| 0 <= k < |L| && Covers(L[k], y);
        assert L[1..][k - 1] == L[k];
      }
      1 + Picked(L[1..], y)
  }

  ghost predicate SameYears(a: seq<Range>, b: seq<Range>) {
    forall y :: Denotes(a, y) <==> Denotes(b, y)
  }

  lemma StartsDenoted(ranges: seq<Range>, L: seq<Range>)
    requires Maximal(ranges) && SameYears(L, ranges)
    ensures forall k | 0 <= k < |ranges| :: Denotes(L, ranges[k].first)
  {
  }

  /** Two runs never start inside the same range of another list for the same years. */
  lemma PickedApart(ranges: seq<Range>, L: seq<Range>, i: nat, j: nat)
    requires Maximal(ranges) && i < j < |ranges| && SameYears(L, ranges)
    requires Denotes(L, ranges[i].first) && Denotes(L, ranges[j].first)
    ensures Picked(L, ranges[i].first) != Picked(L, ranges[j].first)
  {
    GapBefore(ranges, j);
    assert !Covers(L[Picked(L, ranges[i].first)], ranges[j].first - 1);
  }

  function Picks(ranges: seq<Range>, L: seq<Range>): (r: seq<int>)
    requires forall k | 0 <= k < |ranges| :: Denotes(L, ranges[k].first)
    ensures |r| == |ranges| && forall k | 0 <= k < |r| :: r[k] == Picked(L, ranges[k].first)
  {
    seq(|ranges|, k requires 0 <= k < |ranges| && Denotes(L, ranges[k].first) => Picked(L, ranges[k].first))
  }

  function Interval(first: int, last: int): (r: set<int>)
    ensures forall y :: y in r <==> first <= y <= last
    ensures |r| == if first <= last then last + 1 - first else 0
    decreases last - first
  {
    if first > last then {} else Interval(first, last - 1) + {last}
  }

  /** No shorter list of ranges denotes the same years. */
  lemma Shortest(ranges: seq<Range>, L: seq<Range>)
    requires Maximal(ranges) && SameYears(L, ranges)
    ensures |ranges| <= |L|
  {
    StartsDenoted(ranges, L);
    var picks := Picks(ranges, L);
    forall i, j | 0 <= i < j < |picks| ensures picks[i] != picks[j] {
      PickedApart(ranges, L, i, j);
    }
    CountPicks(picks, |L|);
  }

  lemma CountPicks(picks: seq<int>, n: nat)
    requires forall i, j | 0 <= i < j < |picks| :: picks[i] != picks[j]
    requires forall k | 0 <= k < |picks| :: 0 <= picks[k] < n
    ensures |picks| <= n
  {
    DistinctCount(picks);
    SubsetCount((set x | x in picks), Interval(0, n - 1));
  }

  // ---------- Printing ----------

  function IntText(n: int): string {
    if n < 0 then "-" + Decimal(-n) else Decimal(n)
  }

  function RangeText(r: Range): string {
    if r.first == r.last then IntText(r.first) else IntText(r.first) + "-" + IntText(r.last)
  }

  function RangeTexts(ranges: seq<Range>): (r: seq<string>)
    ensures |r| == |ranges| && forall k | 0 <= k < |r| :: r[k] == RangeText(ranges[k])
  {
    seq(|ranges|, k requires 0 <= k < |ranges| => RangeText(ranges[k]))
  }

  function Sorted(listed: seq<int>): seq<int> {
    Sorting.SortBy((y: int) => y, listed)
  }

  /** Prints the years of a set, given in any order; `None` is the failure on no years. */
  method DateStr(listed: seq<int>) returns (r: Option<string>)
    ensures r == if listed == [] then None else Some(Join(RangeTexts(Runs(Sorted(listed))), ','))
  {
    var dates := Sorted(listed);
    if dates == [] {
      return None;
    }
    var first := dates[0];
    var second := first;
    var output: seq<string> := [];
    ghost var done: seq<Range> := [];
    RunsStep(dates, 0);
    for k := 1 to |dates|
      invariant Runs(dates[..k]) == done + [Range(first, second)] && output == RangeTexts(done)
    {
      var next := dates[k];
      RunsStep(dates, k);
      ExtendedCases(done, first, second, next);
      TextsAppend(done, Range(first, second));
      if next == second + 1 {
        second := next;
      } else {
        output := output + [RangeText(Range(first, second))];
        done := done + [Range(first, second)];
        first := next;
        second := next;
      }
    }
    assert dates[..|dates|] == dates;
    TextsAppend(done, Range(first, second));
    output := output + [RangeText(Range(first, second))];
    r := Some(Join(output, ','));
  }

  lemma TextsAppend(done: seq<Range>, r: Range)
    ensures RangeTexts(done + [r]) == RangeTexts(done) + [RangeText(r)]
  {
  }

  lemma RunsStep(s: seq<int>, k: nat)
    requires k < |s|
    ensures Runs(s[..k + 1]) == Extended(Runs(s[..k]), s[k])
  {
    assert s[..k + 1][..k] == s[..k];
  }

  lemma ExtendedCases(done: seq<Range>, first: int, second: int, next: int)
    ensures Extended(done + [Range(first, second)], next) ==
            if next == second + 1 then done + [Range(first, next)]
            else done + [Range(first, second)] + [Range(next, next)]
  {
  }

  // ---------- Reading ----------

  function ParseInt(s: string): Option<int> {
    if s != [] && s[0] == '-' then
      match ParseNat(s[1..])
      case Some(n) => Some(0 - n)
      case None => None
    else ParseNat(s)
  }

  predicate FourDigits(s: string) {
    |s| >= 4 && AllDigits(s[..4])
  }

  /** A dash with white space around it, four digits, and then anything. */
  function MatchLast(s: string): Option<nat> {
    var rest := DropLeading(s);
    if rest == [] || rest[0] != '-' then None
    else
      var tail := DropLeading(rest[1..]);
      if FourDigits(tail) then Some(DigitsValue(tail[..4])) else None
  }

  /** Four digits, a dash with white space around it, four digits, and then anything. */
  function MatchRange(s: string): Option<Range> {
    if !FourDigits(s) then None
    else
      match MatchLast(s[4..])
      case None => None
      case Some(last) => Some(Range(DigitsValue(s[..4]), last))
  }

  /** The years of one piece; what cannot be read is skipped. */
  function Piece(s: string): set<int> {
    match MatchRange(s)
    case Some(r) => Interval(r.first, r.last)
    case None =>
      match ParseInt(s)
      case Some(n) => {n}
      case None => {}
  }

  function AllPieces(pieces: seq<string>): set<int> {
    if pieces == [] then {} else AllPieces(pieces[..|pieces| - 1]) + Piece(Strip(pieces[|pieces| - 1]))
  }

  lemma IntervalMore(years: set<int>, first: int, i: int)
    requires first <= i
    ensures years + Interval(first, i - 1) + {i} == years + Interval(first, i)
  {
  }

  lemma NoInterval(first: int, last: int)
    requires last < first
    ensures Interval(first, last) == {}
  {
  }

  method AddRange(years: set<int>, first: int, last: int) returns (output: set<int>)
    ensures output == years + Interval(first, last)
  {
    output := years;
    var i := first;
    while i < last + 1
      invariant i == first || first < i <= last + 1
      invariant output == years + Interval(first, i - 1)
    {
      IntervalMore(years, first, i);
      output := output + {i};
      i := i + 1;
    }
    if i != last + 1 {
      NoInterval(first, last);
      NoInterval(first, i - 1);
    }
  }

  method AddDate(years: set<int>, date: string) returns (output: set<int>)
    ensures output == years + Piece(date)
  {
    output := years;
    var m := MatchRange(date);
    if m.Some? {
      output := AddRange(years, m.value.first, m.value.last);
    } else {
      var n := ParseInt(date);
      if n.Some? {
        output := years + {n.value};
      }
    }
  }

  /** Reads a list of years and ranges. */
  method ProcessDates(text: string) returns (output: set<int>)
    ensures output == AllPieces(Split(text, ','))
  {
    var dates := Split(text, ',');
    output := {};
    for k := 0 to |dates|
      invariant output == AllPieces(dates[..k])
    {
      assert dates[..k + 1][..k] == dates[..k];
      output := AddDate(output, Strip(dates[k]));
    }
    assert dates[..|dates|] == dates;
  }

  // ---------- Reading what was printed ----------

  lemma DecimalLength(n: nat)
    ensures |Decimal(n)| < 4 <==> n < 1000
    ensures |Decimal(n)| > 4 <==> n > 9999
  {
    assert n >= 10 ==> |Decimal(n)| == 1 + |Decimal(n / 10)|;
    assert n / 10 >= 10 ==> |Decimal(n / 10)| == 1 + |Decimal(n / 10 / 10)|;
    assert n / 10 / 10 >= 10 ==> |Decimal(n / 10 / 10)| == 1 + |Decimal(n / 10 / 10 / 10)|;
    assert n / 10 / 10 / 10 >= 10 ==>
      |Decimal(n / 10 / 10 / 10)| == 1 + |Decimal(n / 10 / 10 / 10 / 10)|;
  }

  lemma ParseIntText(n: int)
    ensures ParseInt(IntText(n)) == Some(n)
  {
    if n < 0 {
      ParseDecimal(-n);
      assert IntText(n)[1..] == Decimal(-n);
    } else {
      ParseDecimal(n);
      assert IsDigit(Decimal(n)[0]);
    }
  }

  lemma NoMatchNumber(n: int)
    ensures MatchRange(IntText(n)).None?
  {
  }

  /** The number in the first four digits. */
  function FourOf(n: nat): nat {
    var d := Decimal(n);
    if |d| >= 4 then DigitsValue(d[..4]) else n
  }

  lemma FourOfExact(n: nat)
    requires n >= 1000
    ensures if n <= 9999 then FourOf(n) == n else FourOf(n) < n
  {
    DecimalLength(n);
    ParseDecimal(n);
    DigitsBound(Decimal(n)[..4]);
    assert |Decimal(n)| == 4 ==> Decimal(n)[..4] == Decimal(n);
  }

  /** A range is matched exactly when its first year has four digits, and then only four
      digits of its last year are read. */
  lemma MatchText(first: int, last: int)
    requires first < last
    ensures MatchRange(IntText(first) + "-" + IntText(last)) ==
            if 1000 <= first <= 9999 then Some(Range(first, FourOf(last))) else None
  {
    var a, b := IntText(first), IntText(last);
    var s := a + "-" + b;
    if first < 0 {
      NotFour(s, 0);
    } else {
      DecimalLength(first);
      if |a| < 4 {
        if |s| >= 4 {
          NotFour(s, |a|);
        }
      } else if |a| > 4 {
        assert s[4..][0] == a[4];
      } else {
        DecimalLength(last);
        ParseDecimal(first);
        assert s[..4] == a && s[4..] == "-" + b && s[4..][1..] == b;
        assert IsDigit(b[0]);
        assert FourDigits(b);
      }
    }
  }

  lemma NotFour(s: string, k: nat)
    requires k < 4 <= |s| && s[k] == '-'
    ensures !FourDigits(s)
  {
  }

  /** A text with a dash behind its first character is no number. */
  lemma DashInside(s: string, k: nat)
    requires 0 < k < |s| && s[k] == '-'
    ensures ParseInt(s).None?
  {
  }

  predicate Readable(r: Range) {
    r.first == r.last || (1000 <= r.first && r.last <= 9999)
  }

  lemma {:induction false} DigitsBound(s: string)
    requires AllDigits(s) && |s| == 4
    ensures DigitsValue(s) < 10000
  {
    assert DigitsValue(s) == DigitsValue(s[..3]) * 10 + DigitValue(s[3]);
    assert s[..3][..2] == s[..2] && s[..2][..1] == s[..1] && s[..1][..0] == [];
    assert DigitsValue(s[..3]) == DigitsValue(s[..2]) * 10 + DigitValue(s[2]);
    assert DigitsValue(s[..2]) == DigitsValue(s[..1]) * 10 + DigitValue(s[1]);
    assert DigitsValue(s[..1]) == DigitsValue(s[..0]) * 10 + DigitValue(s[0]);
  }

  /** What is read back of one printed range: all of it exactly when it is readable, and
      otherwise a part without the last year. */
  lemma PieceOfRange(r: Range)
    requires r.first <= r.last
    ensures Readable(r) ==> Piece(RangeText(r)) == Interval(r.first, r.last)
    ensures Piece(RangeText(r)) <= Interval(r.first, r.last)
    ensures !Readable(r) ==> r.last !in Piece(RangeText(r))
  {
    if r.first == r.last {
      NoMatchNumber(r.first);
      ParseIntText(r.first);
      assert Interval(r.first, r.last) == {r.first};
    } else {
      MatchText(r.first, r.last);
      DashInside(RangeText(r), |IntText(r.first)|);
      if 1000 <= r.first <= 9999 {
        FourOfExact(r.last);
      }
    }
  }

  lemma RangeTextPlain(r: Range)
    ensures Without(RangeText(r), ',') && Strip(RangeText(r)) == RangeText(r)
  {
  }

  /** What reading the printed runs gives. */
  function ReadBack(s: seq<int>): set<int>
    requires s != []
  {
    AllPieces(Split(Join(RangeTexts(Runs(s)), ','), ','))
  }

  lemma SplitTexts(ranges: seq<Range>)
    requires ranges != []
    ensures Split(Join(RangeTexts(ranges), ','), ',') == RangeTexts(ranges)
  {
    var texts := RangeTexts(ranges);
    forall k | 0 <= k < |texts| ensures Without(texts[k], ',') {
      RangeTextPlain(ranges[k]);
    }
    SplitJoin(texts, ',');
  }

  ghost predicate ReadFrom(ranges: seq<Range>, y: int) {
    exists k :: 0 <= k < |ranges| && y in Piece(RangeText(ranges[k]))
  }

  lemma {:induction false} ReadFromTexts(ranges: seq<Range>, y: int)
    ensures y in AllPieces(RangeTexts(ranges)) <==> ReadFrom(ranges, y)
  {
    if ranges != [] {
      var front, r := ranges[..|ranges| - 1], ranges[|ranges| - 1];
      ReadFromTexts(front, y);
      RangeTextPlain(r);
      assert ranges == front + [r];
      TextsAppend(front, r);
      ReadFromMore(front, r, y);
      assert (RangeTexts(front) + [RangeText(r)])[..|front|] == RangeTexts(front);
    }
  }

  lemma ReadFromMore(front: seq<Range>, r: Range, y: int)
    ensures ReadFrom(front + [r], y) <==> ReadFrom(front, y) || y in Piece(RangeText(r))
  {
    var all := front + [r];
    if k :| 0 <= k < |front| && y in Piece(RangeText(front[k])) {
      assert y in Piece(RangeText(all[k]));
    }
    if y in Piece(RangeText(r)) {
      assert y in Piece(RangeText(all[|front|]));
    }
  }

  lemma YearReadBack(s: seq<int>, y: int)
    requires s != []
    ensures y in ReadBack(s) <==> ReadFrom(Runs(s), y)
  {
    SplitTexts(Runs(s));
    ReadFromTexts(Runs(s), y);
  }

  /** Nothing but the years is ever read. */
  lemma OnlyYears(s: seq<int>, y: int)
    requires s != [] && Increasing(s) && y in ReadBack(s)
    ensures y in s
  {
    YearReadBack(s, y);
    RunsAreMaximal(s);
    var k :| 0 <= k < |Runs(s)| && y in Piece(RangeText(Runs(s)[k]));
    PieceOfRange(Runs(s)[k]);
    assert Covers(Runs(s)[k], y);
    RunsDenoteAll(s, y);
  }

  /** Main result: the years are read back exactly when every run of two or more years
      starts and ends with a year of four digits. */
  lemma RoundTrip(s: seq<int>)
    requires s != [] && Increasing(s)
    ensures (forall y :: y in ReadBack(s) <==> y in s) <==>
            forall k | 0 <= k < |Runs(s)| :: Readable(Runs(s)[k])
  {
    var ranges := Runs(s);
    RunsAreMaximal(s);
    if forall k | 0 <= k < |ranges| :: Readable(ranges[k]) {
      forall y ensures y in ReadBack(s) <==> y in s {
        AllReadable(s, y);
      }
    } else {
      var k :| 0 <= k < |ranges| && !Readable(ranges[k]);
      LostYear(s, k);
    }
  }

  lemma AllReadable(s: seq<int>, y: int)
    requires s != [] && Increasing(s) && forall k | 0 <= k < |Runs(s)| :: Readable(Runs(s)[k])
    ensures y in ReadBack(s) <==> y in s
  {
    if y in ReadBack(s) {
      OnlyYears(s, y);
    } else {
      RunsDenoteAll(s, y);
      RunsAreMaximal(s);
      YearReadBack(s, y);
      forall k | 0 <= k < |Runs(s)| ensures !Covers(Runs(s)[k], y) {
        PieceOfRange(Runs(s)[k]);
      }
    }
  }

  lemma {:induction false} LostYear(s: seq<int>, k: nat)
    requires s != [] && Increasing(s) && k < |Runs(s)| && !Readable(Runs(s)[k])
    ensures Runs(s)[k].last in s && Runs(s)[k].last !in ReadBack(s)
  {
    var ranges := Runs(s);
    var y := ranges[k].last;
    RunsAreMaximal(s);
    assert Covers(ranges[k], y);
    RunsDenoteAll(s, y);
    YearReadBack(s, y);
    forall j | 0 <= j < |ranges| ensures y !in Piece(RangeText(ranges[j])) {
      PieceOfRange(ranges[j]);
      if y in Interval(ranges[j].first, ranges[j].last) {
        MaximalAt(ranges, y, k, j);
      }
    }
  }

  /** Sets of four-digit years always survive. */
  lemma FourDigitYears(s: seq<int>, y: int)
    requires s != [] && Increasing(s) && forall k | 0 <= k < |s| :: 1000 <= s[k] <= 9999
    ensures y in ReadBack(s) <==> y in s
  {
    RunsAreMaximal(s);
    forall k | 0 <= k < |Runs(s)| ensures Readable(Runs(s)[k]) {
      var r := Runs(s)[k];
      assert Covers(r, r.first) && Covers(r, r.last);
      RunsDenoteAll(s, r.first);
      RunsDenoteAll(s, r.last);
    }
    AllReadable(s, y);
  }

  /** The list a set is printed from is increasing and has the same years. */
  lemma SortedYears(listed: seq<int>)
    requires forall i, j | 0 <= i < j < |listed| :: listed[i] != listed[j]
    ensures Increasing(Sorted(listed)) && forall y :: y in Sorted(listed) <==> y in listed
  {
    var key := (y: int) => y;
    Sorting.SortElements(key, listed);
    Sorting.SortOrdered(key, listed);
    var s := Sorted(listed);
    forall y ensures y in s <==> y in listed {
      assert y in multiset(s) <==> y in multiset(listed);
    }
    forall i, j | 0 <= i < j < |s| ensures s[i] < s[j] {
      assert key(s[i]) <= key(s[j]);
      NotTwice(listed, s, i, j);
    }
  }

  lemma NotTwice(listed: seq<int>, s: seq<int>, i: nat, j: nat)
    requires multiset(s) == multiset(listed) && i < j < |s|
    requires forall a, b | 0 <= a < b < |listed| :: listed[a] != listed[b]
    ensures s[i] != s[j]
  {
    OnceEach(listed, s[i]);
    assert s == s[..i] + [s[i]] + s[i + 1..];
    assert multiset(s) == multiset(s[..i]) + multiset{s[i]} + multiset(s[i + 1..]);
    assert s[j] in s[i + 1..];
  }

  lemma {:induction false} OnceEach(listed: seq<int>, y: int)
    requires forall a, b | 0 <= a < b < |listed| :: listed[a] != listed[b]
    ensures multiset(listed)[y] <= 1
  {
    if listed != [] {
      var front, last := listed[..|listed| - 1], listed[|listed| - 1];
      OnceEach(front, y);
      assert listed == front + [last];
      assert multiset(listed) == multiset(front) + multiset{last};
      assert last !in front;
    }
  }

  // ---------- White space ----------

  /** Only what comes before a character that is no digit decides. */
  lemma DigitsBefore(u: string, x: string, y: string)
    requires x != [] && y != [] && !IsDigit(x[0]) && !IsDigit(y[0])
    ensures FourDigits(u + x) == FourDigits(u + y)
    ensures FourDigits(u + x) ==> |u| >= 4 && (u + x)[..4] == (u + y)[..4]
  {
    if |u| >= 4 {
      assert (u + x)[..4] == u[..4] && (u + y)[..4] == u[..4];
    } else {
      assert |u + x| >= 4 ==> (u + x)[..4][|u|] == x[0];
      assert |u + y| >= 4 ==> (u + y)[..4][|u|] == y[0];
    }
  }

  /** The dash, with and without white space around it. */
  function Dash(w: string, w': string, b: string): string {
    w + "-" + w' + b
  }

  lemma DashIsNoDigit(w: string, w': string, b: string)
    requires AllSpace(w)
    ensures Dash(w, w', b) != [] && !IsDigit(Dash(w, w', b)[0]) && DropLeading(Dash(w, w', b)) == "-" + (w' + b)
  {
    assert Dash(w, w', b) == w + ("-" + (w' + b));
    LeadingSpace(w, "-" + (w' + b));
  }

  lemma DashFirst(t: string, w: string, w': string, b: string)
    requires AllSpace(t) && AllSpace(w) && AllSpace(w')
    ensures MatchLast(t + Dash(w, w', b)) == if FourDigits(DropLeading(b)) then Some(DigitsValue(DropLeading(b)[..4])) else None
  {
    LeadingSpace(t, Dash(w, w', b));
    DashIsNoDigit(w, w', b);
    assert ("-" + (w' + b))[1..] == w' + b;
    LeadingSpace(w', b);
  }

  lemma DashLater(t: string, w: string, w': string, b: string)
    requires !AllSpace(t) && AllSpace(w)
    ensures MatchLast(t + Dash(w, w', b)) == MatchLast(t + Dash("", "", b))
  {
    var x, y, rest := Dash(w, w', b), Dash("", "", b), DropLeading(t);
    DropBefore(t, x);
    DropBefore(t, y);
    DashIsNoDigit(w, w', b);
    DashIsNoDigit("", "", b);
    var more := rest[1..];
    assert (rest + x)[1..] == more + x && (rest + y)[1..] == more + y;
    if AllSpace(more) {
      LeadingSpace(more, x);
      LeadingSpace(more, y);
      assert !FourDigits("-" + (w' + b)) && !FourDigits("-" + ("" + b)) by {
        NoFour("-" + (w' + b));
        NoFour("-" + ("" + b));
      }
    } else {
      DropBefore(more, x);
      DropBefore(more, y);
      DigitsBefore(DropLeading(more), x, y);
    }
  }

  lemma NoFour(s: string)
    requires s != [] && s[0] == '-'
    ensures !FourDigits(s)
  {
  }

  lemma SpacedLast(t: string, w: string, w': string, b: string)
    requires AllSpace(w) && AllSpace(w')
    ensures MatchLast(t + Dash(w, w', b)) == MatchLast(t + Dash("", "", b))
  {
    if AllSpace(t) {
      DashFirst(t, w, w', b);
      DashFirst(t, "", "", b);
    } else {
      DashLater(t, w, w', b);
    }
  }

  /** White space around the dash of a range makes no difference, whatever the text. */
  lemma SpacesAtDash(a: string, w: string, w': string, b: string)
    requires AllSpace(w) && AllSpace(w')
    ensures MatchRange(a + Dash(w, w', b)) == MatchRange(a + Dash("", "", b))
  {
    var x, y := a + Dash(w, w', b), a + Dash("", "", b);
    DashIsNoDigit(w, w', b);
    DashIsNoDigit("", "", b);
    DigitsBefore(a, Dash(w, w', b), Dash("", "", b));
    if FourDigits(x) {
      SpacedLast(a[4..], w, w', b);
      assert x[4..] == a[4..] + Dash(w, w', b) && y[4..] == a[4..] + Dash("", "", b);
    }
  }

  /** Unless the dash is a sign, what is read is the same. */
  lemma PieceAtDash(a: string, w: string, w': string, b: string)
    requires AllSpace(w) && AllSpace(w') && a != []
    ensures Piece(a + Dash(w, w', b)) == Piece(a + Dash("", "", b))
  {
    SpacesAtDash(a, w, w', b);
    NoNumber(a, w, w', b);
    NoNumber(a, "", "", b);
  }

  lemma NoNumber(a: string, w: string, w': string, b: string)
    requires a != []
    ensures ParseInt(a + Dash(w, w', b)).None?
  {
    var x := a + Dash(w, w', b);
    assert x[|a| + |w|] == '-';
    DashInside(x, |a| + |w|);
  }

  /** The pieces with white space around them. */
  ghost predicate Spaced(pieces: seq<string>, spaced: seq<string>) {
    |spaced| == |pieces| && forall k | 0 <= k < |pieces| :: SpacedOne(pieces[k], spaced[k])
  }

  ghost predicate SpacedOne(s: string, t: string) {
    exists w, w' :: AllSpace(w) && AllSpace(w') && t == w + s + w'
  }

  lemma SpacedSame(s: string, t: string)
    requires SpacedOne(s, t)
    ensures Strip(t) == Strip(s)
  {
    var w, w' :| AllSpace(w) && AllSpace(w') && t == w + s + w';
    StripSpaces(w, s, w');
  }

  /** White space around the pieces of a list makes no difference. */
  lemma {:induction false} SpacesAround(pieces: seq<string>, spaced: seq<string>)
    requires Spaced(pieces, spaced)
    ensures AllPieces(spaced) == AllPieces(pieces)
  {
    if pieces != [] {
      var n := |pieces| - 1;
      SpacesAround(pieces[..n], spaced[..n]);
      SpacedSame(pieces[n], spaced[n]);
    }
  }

  /** A blank piece, as after a last comma, adds no year. */
  lemma BlankPiece(w: string)
    requires AllSpace(w)
    ensures Piece(Strip(w)) == {}
  {
    LeadingSpace(w, []);
    assert w + [] == w;
  }
}
