/** A circular buffer that keeps the last lines of its input. */
module LogRoll {

  type Line = string

  /** The lines to show after `read`: all of them when no positive number is asked for. */
  function Last(target: int, read: seq<Line>): seq<Line> {
    if 1 <= target < |read| then read[|read| - target..] else read
  }

  class Roll {
    var lines: seq<Line>
    var idx: nat

    constructor ()
      ensures lines == [] && idx == 0
    {
      lines, idx := [], 0;
    }

    method DumpLines() returns (shown: seq<Line>)
      requires idx <= |lines|
      ensures shown == lines[idx..] + lines[..idx]
    {
      shown := [];
      for k := idx to |lines|
        invariant shown == lines[idx..k]
      {
        shown := shown + [lines[k]];
      }
      for k := 0 to idx
        invariant shown == lines[idx..] + lines[..k]
      {
        shown := shown + [lines[k]];
      }
    }

    /** Answers the signals that arrive while the next line is awaited. */
    method Answer(times: nat, ghost target: int, ghost read: seq<Line>) returns (shown: seq<seq<Line>>)
      requires Filling(lines, idx, target, read) || Wrapping(lines, idx, target, read)
      ensures shown == Copies(times, Last(target, read))
    {
      Shows(lines, idx, target, read);
      shown := [];
      for k := 0 to times
        invariant shown == Copies(k, Last(target, read))
      {
        var dump := DumpLines();
        shown := shown + [dump];
      }
    }

    /** The first loop: the buffer grows until it is full or the input ends. */
    method Fill(target: int, incoming: seq<Line>, signals: seq<nat>) returns (n: nat, full: bool, dumps: seq<seq<Line>>)
      requires lines == [] && idx == 0 && |signals| == |incoming| + 1
      modifies this
      ensures n <= |incoming|
      ensures full ==> Wrapping(lines, idx, target, incoming[..n]) && dumps == Expected(target, incoming, signals, n)
      ensures !full ==> n == |incoming| && Filling(lines, idx, target, incoming)
                        && dumps == Expected(target, incoming, signals, n + 1)
    {
      n, full, dumps := 0, false, [];
      while true
        invariant n <= |incoming| && Filling(lines, idx, target, incoming[..n])
        invariant dumps == Expected(target, incoming, signals, n)
        decreases |incoming| - n
      {
        var shown := Answer(signals[n], target, incoming[..n]);
        dumps := dumps + shown;
        if n == |incoming| {
          assert incoming[..n] == incoming;
          return;
        }
        lines := lines + [incoming[n]];
        n := n + 1;
        assert incoming[..n] == incoming[..n - 1] + [incoming[n - 1]];
        if idx == target - 1 {
          idx := 0;
          full := true;
          return;
        }
        idx := idx + 1;
      }
    }

    /** The second loop: every line replaces the oldest one. */
    method Wrap(target: int, incoming: seq<Line>, signals: seq<nat>, start: nat) returns (dumps: seq<seq<Line>>)
      requires start <= |incoming| && |signals| == |incoming| + 1
      requires Wrapping(lines, idx, target, incoming[..start])
      modifies this
      ensures Wrapping(lines, idx, target, incoming)
      ensures Expected(target, incoming, signals, start) + dumps == Expected(target, incoming, signals, |signals|)
    {
      var n := start;
      dumps := [];
      while true
        invariant start <= n <= |incoming| && Wrapping(lines, idx, target, incoming[..n])
        invariant Expected(target, incoming, signals, start) + dumps == Expected(target, incoming, signals, n)
        decreases |incoming| - n
      {
        var shown := Answer(signals[n], target, incoming[..n]);
        Append(Expected(target, incoming, signals, start), dumps, shown);
        dumps := dumps + shown;
        if n == |incoming| {
          assert incoming[..n] == incoming;
          return;
        }
        Overwrite(lines, idx, target, incoming[..n], incoming[n]);
        assert incoming[..n + 1] == incoming[..n] + [incoming[n]];
        lines := lines[idx := incoming[n]];
        idx := Next(idx, target);
        n := n + 1;
      }
    }

    /** The whole program: `signals[k]` dumps are asked for when `k` lines have been read.
        Every dump is the last lines read so far, and so is the final one. */
    method Run(target: int, incoming: seq<Line>, signals: seq<nat>) returns (dumps: seq<seq<Line>>)
      requires lines == [] && idx == 0 && |signals| == |incoming| + 1
      modifies this
      ensures dumps == Expected(target, incoming, signals, |signals|) + [Last(target, incoming)]
    {
      var n, full;
      n, full, dumps := Fill(target, incoming, signals);
      if full {
        var more := Wrap(target, incoming, signals, n);
        dumps := dumps + more;
      }
      Shows(lines, idx, target, incoming);
      var last := DumpLines();
      dumps := dumps + [last];
    }
  }

  /** The first loop still runs. */
  predicate Filling(lines: seq<Line>, idx: nat, target: int, read: seq<Line>) {
    lines == read && idx == |read| && (target <= 0 || |read| < target)
  }

  /** The buffer is full and the oldest line is at `idx`. */
  predicate Wrapping(lines: seq<Line>, idx: nat, target: int, read: seq<Line>) {
    && 1 <= target <= |read|
    && |lines| == target && idx < target
    && forall j | 0 <= j < target :: lines[j] == read[|read| - target + Age(j, idx, target)]
  }

  function Next(idx: nat, target: int): nat {
    if idx == target - 1 then 0 else idx + 1
  }

  /** Both phases show the last lines in order. */
  lemma Shows(lines: seq<Line>, idx: nat, target: int, read: seq<Line>)
    requires Filling(lines, idx, target, read) || Wrapping(lines, idx, target, read)
    ensures idx <= |lines| && lines[idx..] + lines[..idx] == Last(target, read)
  {
  }

  /** Writing over the oldest line and moving on keeps the buffer in order. */
  lemma Overwrite(lines: seq<Line>, idx: nat, target: int, read: seq<Line>, line: Line)
    requires Wrapping(lines, idx, target, read)
    ensures Wrapping(lines[idx := line], Next(idx, target), target, read + [line])
  {
  }

  lemma Append<T>(a: seq<T>, b: seq<T>, c: seq<T>)
    ensures a + b + c == a + (b + c)
  {
  }

  /** The distance of slot `j` from the oldest slot. */
  function Age(j: nat, oldest: nat, target: nat): (r: nat)
    requires j < target && oldest < target
    ensures r < target
  {
    if oldest <= j then j - oldest else j + target - oldest
  }

  function Copies(times: nat, lines: seq<Line>): (r: seq<seq<Line>>)
    ensures |r| == times && forall k | 0 <= k < times :: r[k] == lines
  {
    seq(times, k => lines)
  }

  /** What the signals at the first `k` read points show. */
  function Expected(target: int, incoming: seq<Line>, signals: seq<nat>, k: nat): seq<seq<Line>>
    requires |signals| == |incoming| + 1 && k <= |signals|
  {
    if k == 0 then []
    else Expected(target, incoming, signals, k - 1) + Copies(signals[k - 1], Last(target, incoming[..k - 1]))
  }
}
