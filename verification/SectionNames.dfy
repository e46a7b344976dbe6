/** How merging checkpoints renames the sections of the CPUs: the number of the checkpoint,
    padded to a fixed width, is inserted after every "cpu". */
module SectionNames {
  import opened Basics
  import opened Text

  predicate AtCpu(s: string) {
    |s| >= 3 && s[0] == 'c' && s[1] == 'p' && s[2] == 'u'
  }

  predicate HasCpu(s: string) {
    s != [] && (AtCpu(s) || HasCpu(s[1..]))
  }

  /** Every non-overlapping "cpu", from the left, is followed by `digits`. */
  function Insert(s: string, digits: string): string {
    if s == [] then []
    else if AtCpu(s) then "cpu" + digits + Insert(s[3..], digits)
    else [s[0]] + Insert(s[1..], digits)
  }

  /** Takes out `width` characters after every "cpu". */
  function Remove(t: string, width: nat): string {
    if t == [] then []
    else if AtCpu(t) && |t| >= 3 + width then "cpu" + Remove(t[3 + width..], width)
    else [t[0]] + Remove(t[1..], width)
  }

  /** No occurrence of "cpu" arises where there was none. */
  lemma InsertStarts(s: string, digits: string)
    requires s != []
    ensures Insert(s, digits) != [] && Insert(s, digits)[0] == s[0]
    ensures AtCpu(Insert(s, digits)) <==> AtCpu(s)
  {
    if !AtCpu(s) && |s| > 1 {
      var t := Insert(s, digits);
      InsertStarts(s[1..], digits);
      assert t[1..] == Insert(s[1..], digits);
      if |s| > 2 && !AtCpu(s[1..]) {
        InsertStarts(s[2..], digits);
        assert s[1..][1..] == s[2..];
        assert t[1..][1..] == Insert(s[2..], digits);
      }
    }
  }

  lemma {:induction false} RemoveInsert(s: string, digits: string)
    ensures Remove(Insert(s, digits), |digits|) == s
  {
    if s != [] {
      var t := Insert(s, digits);
      InsertStarts(s, digits);
      if AtCpu(s) {
        RemoveInsert(s[3..], digits);
        assert t[3 + |digits|..] == Insert(s[3..], digits);
        assert s == "cpu" + s[3..];
      } else {
        RemoveInsert(s[1..], digits);
        assert t[1..] == Insert(s[1..], digits);
        assert s == [s[0]] + s[1..];
      }
    }
  }

  lemma {:induction false} InsertedDigits(s: string, d: string, e: string)
    requires HasCpu(s) && |d| == |e| && Insert(s, d) == Insert(s, e)
    ensures d == e
  {
    if AtCpu(s) {
      assert d == Insert(s, d)[3..3 + |d|];
      assert e == Insert(s, e)[3..3 + |e|];
    } else {
      assert Insert(s[1..], d) == Insert(s, d)[1..];
      assert Insert(s[1..], e) == Insert(s, e)[1..];
      InsertedDigits(s[1..], d, e);
    }
  }

  lemma {:induction false} PlainName(name: string, digits: string)
    requires !HasCpu(name)
    ensures Insert(name, digits) == name
  {
    if name != [] {
      PlainName(name[1..], digits);
    }
  }

  lemma {:induction false} WithoutCpu(s: string)
    requires forall i | 0 <= i < |s| :: s[i] != 'c'
    ensures !HasCpu(s)
  {
    if s != [] {
      WithoutCpu(s[1..]);
    }
  }

  /** A renamed name still has its "cpu". */
  lemma {:induction false} InsertHasCpu(s: string, digits: string)
    requires HasCpu(s)
    ensures HasCpu(Insert(s, digits))
  {
    InsertStarts(s, digits);
    if !AtCpu(s) {
      InsertHasCpu(s[1..], digits);
      assert Insert(s, digits)[1..] == Insert(s[1..], digits);
    }
  }

  // ---------- The number of the checkpoint ----------

  function Zeros(k: nat): (r: string)
    ensures |r| == k && forall i | 0 <= i < k :: r[i] == '0'
  {
    seq(k, i => '0')
  }

  /** `zfill`: padded with zeros on the left. */
  function Padded(s: string, width: nat): string {
    if |s| < width then Zeros(width - |s|) + s else s
  }

  lemma {:induction false} ZerosValue(k: nat, s: string)
    requires AllDigits(s)
    ensures AllDigits(Zeros(k) + s) && DigitsValue(Zeros(k) + s) == DigitsValue(s)
    decreases k + |s|
  {
    var t := Zeros(k) + s;
    if s != [] {
      ZerosValue(k, s[..|s| - 1]);
      assert t[..|t| - 1] == Zeros(k) + s[..|s| - 1];
    } else if k > 0 {
      ZerosValue(k - 1, s);
      assert t[..|t| - 1] == Zeros(k - 1) + s;
    }
  }

  lemma {:induction false} LongerDecimal(m: nat, n: nat)
    requires m <= n
    ensures |Decimal(m)| <= |Decimal(n)|
  {
    if m >= 10 {
      LongerDecimal(m / 10, n / 10);
    }
  }

  /** The number inserted for checkpoint `i` of `n`. */
  function Index(i: nat, n: nat): string
    requires i < n
  {
    Padded(Decimal(i), |Decimal(n - 1)|)
  }

  lemma IndexWidth(i: nat, n: nat)
    requires i < n
    ensures |Index(i, n)| == |Decimal(n - 1)|
  {
    LongerDecimal(i, n - 1);
  }

  lemma PaddedValue(s: string, width: nat)
    requires s != [] && AllDigits(s)
    ensures ParseNat(Padded(s, width)) == ParseNat(s)
  {
    if |s| < width {
      ZerosValue(width - |s|, s);
    }
  }

  lemma IndexValue(i: nat, n: nat)
    requires i < n
    ensures ParseNat(Index(i, n)) == Some(i)
  {
    ParseDecimal(i);
    PaddedValue(Decimal(i), |Decimal(n - 1)|);
  }

  function Rename(name: string, i: nat, n: nat): string
    requires i < n
  {
    Insert(name, Index(i, n))
  }

  /** Two sources never get the same name, whatever digits the names had already. */
  lemma RenameInjective(a: string, i: nat, b: string, j: nat, n: nat)
    requires i < n && j < n && HasCpu(a)
    requires Rename(a, i, n) == Rename(b, j, n)
    ensures a == b && i == j
  {
    IndexWidth(i, n);
    IndexWidth(j, n);
    RemoveInsert(a, Index(i, n));
    RemoveInsert(b, Index(j, n));
    InsertedDigits(a, Index(i, n), Index(j, n));
    IndexValue(i, n);
    IndexValue(j, n);
  }

  /** Without the padding two sources can collide: twelve checkpoints, the second and the
      twelfth. */
  lemma PaddingIsNeeded()
    ensures Insert("cpu1", Decimal(1)) == Insert("cpu", Decimal(11))
  {
  }
}
