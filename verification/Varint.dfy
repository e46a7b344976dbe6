/** Base-128 varints as the trace tools read and write them: seven bits to a byte, least
    significant group first, the high bit set on all bytes but the last. */
module Varint {
  import opened Basics

  const MAX_GROUPS := 10          // the decoder gives up once it has shifted by 64 bits
  const TWO32 := 0x1_0000_0000
  const TWO63 := 0x8000_0000_0000_0000

  function Pow128(k: nat): (r: nat)
    ensures r >= 1
  {
    if k == 0 then 1 else 128 * Pow128(k - 1)
  }

  class OutFile {
    var data: seq<Byte>

    constructor ()
      ensures data == []
    {
      data := [];
    }

    method Write(bytes: seq<Byte>)
      modifies this
      ensures data == old(data) + bytes
    {
      data := data + bytes;
    }
  }

  class InFile {
    const data: seq<Byte>
    var pos: nat

    ghost predicate Valid()
      reads this
    {
      pos <= |data|
    }

    /** What has not been read yet. */
    ghost function Rest(): seq<Byte>
      requires Valid()
      reads this
    {
      data[pos..]
    }

    constructor (data: seq<Byte>)
      ensures Valid() && Rest() == data
    {
      this.data := data;
      pos := 0;
    }

    /** At most `n` bytes, or everything left if `n` is -1; any other negative length is a
        `ValueError`. */
    method Read(n: int) returns (r: Option<seq<Byte>>)
      requires Valid()
      modifies this
      ensures Valid() && (r.Some? <==> n >= -1)
      ensures r.Some? ==> r.value == Taken(old(Rest()), n) && Rest() == old(Rest())[|r.value|..]
      ensures r.None? ==> Rest() == old(Rest())
    {
      if n < -1 {
        return None;
      }
      var count := if n == -1 || n > |data| - pos then |data| - pos else n;
      r := Some(data[pos..pos + count]);
      pos := pos + count;
    }
  }

  function Taken(s: seq<Byte>, n: int): seq<Byte>
    requires n >= -1
  {
    if n == -1 || n > |s| then s else s[..n]
  }

  // ---------- Encoding ----------

  function VarintBytes(n: nat): (r: seq<Byte>)
    ensures |r| >= 1
  {
    if n < 128 then [n] else [128 + n % 128] + VarintBytes(n / 128)
  }

  method EncodeVarint32(out: OutFile, value: nat)
    modifies out
    ensures out.data == old(out.data) + VarintBytes(value)
  {
    var bits, rest := value % 128, value / 128;
    while rest != 0
      invariant 0 <= bits < 128 && rest >= 0
      invariant out.data + VarintBytes(rest * 128 + bits) == old(out.data) + VarintBytes(value)
      decreases rest
    {
      assert VarintBytes(rest * 128 + bits) == [128 + bits] + VarintBytes(rest);
      out.Write([128 + bits]);
      bits := rest % 128;
      rest := rest / 128;
    }
    out.Write([bits]);
  }

  // ---------- Decoding ----------

  /** The masking at the end of the decoder: the low 32 bits, and below zero if the
      accumulated value does not fit 63 bits. */
  function Masked(v: nat): int {
    if v >= TWO63 then v % TWO32 - TWO32 else v % TWO32
  }

  datatype Decoded = Value(v: int, size: nat) | EndOfFile | TooManyBytes

  /** The decoder after `k` bytes that accumulated to `acc`. */
  function DecodeFrom(s: seq<Byte>, k: nat, acc: nat): Decoded {
    if s == [] then EndOfFile
    else
      var acc' := acc + s[0] % 128 * Pow128(k);
      if s[0] < 128 then Value(Masked(acc'), k + 1)
      else if 7 * (k + 1) >= 64 then TooManyBytes
      else DecodeFrom(s[1..], k + 1, acc')
  }

  function Decode(s: seq<Byte>): Decoded {
    DecodeFrom(s, 0, 0)
  }

  function Consumed(s: seq<Byte>, d: Decoded): nat {
    match d
    case Value(_, size) => size
    case EndOfFile => |s|
    case TooManyBytes => MAX_GROUPS
  }

  method DecodeVarint32(f: InFile) returns (r: Decoded)
    requires f.Valid()
    modifies f
    ensures f.Valid() && r == Decode(old(f.Rest()))
    ensures Consumed(old(f.Rest()), r) <= |old(f.Rest())|
    ensures f.Rest() == old(f.Rest())[Consumed(old(f.Rest()), r)..]
  {
    ghost var all := f.Rest();
    var result, shift, pos := 0, 0, 0;
    while true
      invariant f.Valid() && shift == 7 * pos && pos < MAX_GROUPS && pos <= |all|
      invariant f.Rest() == all[pos..]
      invariant result >= 0
      invariant Decode(all) == DecodeFrom(all[pos..], pos, result)
      decreases MAX_GROUPS - pos
    {
      var c := f.Read(1);
      if |c.value| == 0 {
        return EndOfFile;
      }
      assert all[pos..][1..] == all[pos + 1..];
      var b := c.value[0];
      result := result + b % 128 * Pow128(pos);
      pos := pos + 1;
      if b < 128 {
        return Value(Masked(result), pos);
      }
      shift := shift + 7;
      if shift >= 64 {
        return TooManyBytes;
      }
    }
  }

  // ---------- What the decoder returns ----------

  /** The number a sequence of groups denotes. */
  function Little(s: seq<Byte>): nat {
    if s == [] then 0 else s[0] % 128 + 128 * Little(s[1..])
  }

  /** `s` starts with exactly `n` bytes of one varint. */
  predicate VarintOf(s: seq<Byte>, n: nat) {
    0 < n <= |s| && s[n - 1] < 128 && forall i | 0 <= i < n - 1 :: s[i] >= 128
  }

  lemma DecodeFromMeans(s: seq<Byte>, n: nat, k: nat, acc: nat)
    requires VarintOf(s, n) && k + n <= MAX_GROUPS
    ensures DecodeFrom(s, k, acc) == Value(Masked(acc + Little(s[..n]) * Pow128(k)), k + n)
  {
    var acc' := acc + s[0] % 128 * Pow128(k);
    assert s[..n][0] == s[0] && s[..n][1..] == s[1..][..n - 1];
    var rest := Little(s[1..][..n - 1]);
    Distribute(s[0] % 128, rest, Pow128(k));
    assert Pow128(k + 1) == 128 * Pow128(k);
    if n > 1 {
      DecodeFromMeans(s[1..], n - 1, k + 1, acc');
      Regroup(rest, Pow128(k));
    } else {
      assert rest == 0;
    }
  }

  lemma Distribute(a: int, b: int, p: int)
    ensures (a + 128 * b) * p == a * p + 128 * b * p
  {
  }

  lemma Regroup(b: int, p: int)
    ensures b * (128 * p) == 128 * b * p
  {
  }

  /** A varint of at most ten bytes decodes to its number, masked to 32 bits. */
  lemma DecodeMeans(s: seq<Byte>, n: nat)
    requires VarintOf(s, n) && n <= MAX_GROUPS
    ensures Decode(s) == Value(Masked(Little(s[..n])), n)
  {
    DecodeFromMeans(s, n, 0, 0);
  }

  lemma DecodeFromLong(s: seq<Byte>, k: nat, acc: nat)
    requires k < MAX_GROUPS && |s| >= MAX_GROUPS - k
    requires forall i | 0 <= i < MAX_GROUPS - k :: s[i] >= 128
    ensures DecodeFrom(s, k, acc) == TooManyBytes
  {
  }

  lemma DecodeFromStops(s: seq<Byte>, k: nat, acc: nat)
    requires k < MAX_GROUPS
    ensures DecodeFrom(s, k, acc).Value? ==> k < DecodeFrom(s, k, acc).size <= MAX_GROUPS
  {
  }

  /** The low 32 bits, taken below zero if the number has more than 63. */
  lemma MaskedMeans(v: nat)
    ensures Masked(v) % TWO32 == v % TWO32
    ensures if v < TWO63 then 0 <= Masked(v) < TWO32 else -TWO32 <= Masked(v) < 0
  {
  }

  /** The first `n` bytes all announce another one. */
  predicate Continues(s: seq<Byte>, n: nat) {
    n <= |s| && forall i | 0 <= i < n :: s[i] >= 128
  }

  lemma {:induction false} DecodeFromEnds(s: seq<Byte>, k: nat, acc: nat)
    requires k + |s| < MAX_GROUPS && Continues(s, |s|)
    ensures DecodeFrom(s, k, acc) == EndOfFile
  {
    if s != [] {
      DecodeFromEnds(s[1..], k + 1, acc + s[0] % 128 * Pow128(k));
    }
  }

  lemma {:induction false} FirstEnd(s: seq<Byte>, limit: nat) returns (n: nat)
    ensures if n > 0 then n <= limit && VarintOf(s, n) else Continues(s, if |s| < limit then |s| else limit)
  {
    n := 0;
    if limit > 0 && s != [] {
      if s[0] < 128 {
        n := 1;
      } else {
        var rest := FirstEnd(s[1..], limit - 1);
        n := if rest > 0 then rest + 1 else 0;
      }
    }
  }

  /** Main result: what the decoder makes of any bytes. It returns the number of a varint of at
      most ten bytes, masked; otherwise it has met the end of the file, or gives up. */
  lemma DecodeExactly(s: seq<Byte>) returns (n: nat)
    ensures Decode(s).Value? <==> 0 < n <= MAX_GROUPS && VarintOf(s, n)
    ensures Decode(s).Value? ==> Decode(s) == Value(Masked(Little(s[..n])), n)
    ensures Decode(s).EndOfFile? <==> |s| < MAX_GROUPS && Continues(s, |s|)
    ensures Decode(s).TooManyBytes? <==> Continues(s, MAX_GROUPS)
  {
    n := FirstEnd(s, MAX_GROUPS);
    if n > 0 {
      DecodeMeans(s, n);
    } else if |s| < MAX_GROUPS {
      DecodeFromEnds(s, 0, 0);
    } else {
      DecodeFromLong(s, 0, 0);
    }
  }

  // ---------- Round trip ----------

  lemma EncodedForm(n: nat)
    ensures VarintOf(VarintBytes(n), |VarintBytes(n)|) && Little(VarintBytes(n)) == n
  {
  }

  lemma EncodedLength(n: nat, k: nat)
    requires k >= 1
    ensures |VarintBytes(n)| <= k <==> n < Pow128(k)
  {
  }

  lemma Limit()
    ensures Pow128(MAX_GROUPS) == 0x40_0000_0000_0000_0000
  {
  }

  /** Main result: an encoded number followed by anything decodes to the number masked
      to 32 bits and leaves the rest, if it has at most 70 bits; otherwise the decoder
      gives up after ten bytes. */
  lemma DecodeEncoded(n: nat, suffix: seq<Byte>)
    ensures n < Pow128(MAX_GROUPS) ==>
              Decode(VarintBytes(n) + suffix) == Value(Masked(n), |VarintBytes(n)|)
    ensures n >= Pow128(MAX_GROUPS) ==> Decode(VarintBytes(n) + suffix) == TooManyBytes
  {
    var b := VarintBytes(n);
    var s := b + suffix;
    EncodedForm(n);
    EncodedLength(n, MAX_GROUPS);
    if n < Pow128(MAX_GROUPS) {
      assert s[..|b|] == b;
      DecodeMeans(s, |b|);
    } else {
      DecodeFromLong(s, 0, 0);
    }
  }

  /** The decoder undoes the encoder exactly for numbers of at most 32 bits. */
  lemma RoundTrip(n: nat, suffix: seq<Byte>)
    ensures Decode(VarintBytes(n) + suffix) == Value(n, |VarintBytes(n)|) <==> n < TWO32
  {
    DecodeEncoded(n, suffix);
    Limit();
  }
}
