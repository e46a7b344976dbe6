/** Messages in a trace file: each is preceded by its length as a varint. */
module Framing {
  import opened Basics
  import opened Varint

  type Message = seq<Byte>

  /** A message, none, or the `ValueError` of reading a negative number of bytes. */
  datatype Reading = Read(message: Message) | NoMessage | Raised

  function Encoded(m: Message): seq<Byte> {
    VarintBytes(|m|) + m
  }

  method EncodeMessage(out: OutFile, m: Message)
    modifies out
    ensures out.data == old(out.data) + Encoded(m)
  {
    EncodeVarint32(out, |m|);
    out.Write(m);
  }

  /** One attempt to read a message, and what is left afterwards. The length -1 reads the
      whole rest of the file and a lower one is refused; a length of zero counts as the end. */
  function ReadOne(s: seq<Byte>): (r: (Reading, seq<Byte>))
    ensures |r.1| <= |s|
    ensures r.0.Read? ==> |r.1| < |s|
  {
    var d := Decode(s);
    DecodeFromStops(s, 0, 0);
    SizeFits(s, 0, 0);
    match d
    case EndOfFile => (NoMessage, [])
    case TooManyBytes => (NoMessage, s[MAX_GROUPS..])
    case Value(v, size) =>
      var rest := s[size..];
      if v == 0 then (NoMessage, rest)
      else if v < -1 then (Raised, rest)
      else (Read(Taken(rest, v)), rest[|Taken(rest, v)|..])
  }

  lemma SizeFits(s: seq<Byte>, k: nat, acc: nat)
    requires k < MAX_GROUPS
    ensures var d := DecodeFrom(s, k, acc);
            && (d.Value? ==> d.size - k <= |s|)
            && (d.TooManyBytes? ==> MAX_GROUPS - k <= |s|)
  {
  }

  method DecodeMessage(f: InFile) returns (r: Reading)
    requires f.Valid()
    modifies f
    ensures f.Valid() && (r, f.Rest()) == ReadOne(old(f.Rest()))
  {
    var d := DecodeVarint32(f);
    match d
    case EndOfFile => return NoMessage;
    case TooManyBytes => return NoMessage;
    case Value(size, _) =>
      if size == 0 {
        return NoMessage;
      }
      var buf := f.Read(size);
      if buf.None? {
        return Raised;
      }
      return Read(buf.value);
  }

  /** All messages until the first failed attempt. */
  function ReadAll(s: seq<Byte>): seq<Message>
    decreases |s|
  {
    var (r, rest) := ReadOne(s);
    if r.Read? then [r.message] + ReadAll(rest) else []
  }

  /** The first failed attempt is an exception that nobody catches. */
  predicate Raises(s: seq<Byte>)
    decreases |s|
  {
    var (r, rest) := ReadOne(s);
    if r.Read? then Raises(rest) else r.Raised?
  }

  method DecodeAll(f: InFile) returns (messages: seq<Message>, raised: bool)
    requires f.Valid()
    modifies f
    ensures f.Valid() && messages == ReadAll(old(f.Rest())) && raised == Raises(old(f.Rest()))
  {
    messages := [];
    ghost var all := f.Rest();
    while true
      invariant f.Valid() && messages + ReadAll(f.Rest()) == ReadAll(all) && Raises(f.Rest()) == Raises(all)
      decreases |f.Rest()|
    {
      var r := DecodeMessage(f);
      if !r.Read? {
        return messages, r.Raised?;
      }
      messages := messages + [r.message];
    }
  }

  function EncodedAll(messages: seq<Message>): seq<Byte> {
    if messages == [] then [] else Encoded(messages[0]) + EncodedAll(messages[1..])
  }

  /** The messages before the first empty one. */
  function BeforeEmpty(messages: seq<Message>): seq<Message> {
    if messages == [] || messages[0] == [] then [] else [messages[0]] + BeforeEmpty(messages[1..])
  }

  lemma ReadEncoded(m: Message, suffix: seq<Byte>)
    requires |m| < TWO32
    ensures ReadOne(Encoded(m) + suffix) == if m == [] then (NoMessage, suffix) else (Read(m), suffix)
  {
    var head := VarintBytes(|m|);
    var s := Encoded(m) + suffix;
    assert s == head + (m + suffix);
    RoundTrip(|m|, m + suffix);
    assert s[|head|..] == m + suffix;
  }

  lemma NoneEmpty(messages: seq<Message>)
    requires forall i | 0 <= i < |messages| :: messages[i] != []
    ensures BeforeEmpty(messages) == messages
  {
  }

  lemma {:induction false} ReadFirst(m: Message, rest: seq<Byte>)
    requires |m| < TWO32
    ensures ReadAll(Encoded(m) + rest) == if m == [] then [] else [m] + ReadAll(rest)
    ensures Raises(Encoded(m) + rest) == (m != [] && Raises(rest))
  {
    ReadEncoded(m, rest);
  }

  /** Main result: reading back a file of messages shorter than 2^32 bytes returns them
      in order, up to the first empty one, and raises nothing; all of them if none is empty. */
  lemma {:induction false} ReadAllEncoded(messages: seq<Message>)
    requires forall i | 0 <= i < |messages| :: |messages[i]| < TWO32
    ensures ReadAll(EncodedAll(messages)) == BeforeEmpty(messages) && !Raises(EncodedAll(messages))
    ensures (forall i | 0 <= i < |messages| :: messages[i] != []) ==> ReadAll(EncodedAll(messages)) == messages
  {
    if messages == [] {
      assert ReadOne([]) == (NoMessage, []);
    } else {
      ReadAllEncoded(messages[1..]);
      ReadFirst(messages[0], EncodedAll(messages[1..]));
    }
    if forall i | 0 <= i < |messages| :: messages[i] != [] {
      NoneEmpty(messages);
    }
  }

  /** The length is decoded as -1, which reads the whole rest of the file. */
  predicate ReadsRest(m: Message) {
    TWO63 <= |m| < Pow128(MAX_GROUPS) && |m| % TWO32 == TWO32 - 1
  }

  /** A single message survives in front of more data exactly if it is not empty and
      shorter than 2^32 bytes; at the end of the file also if its length decodes as -1. */
  lemma ReadBackExactly(m: Message, suffix: seq<Byte>)
    ensures ReadOne(Encoded(m) + suffix) == (Read(m), suffix) <==> 0 < |m| < TWO32 || (suffix == [] && ReadsRest(m))
  {
    if |m| < TWO32 {
      ReadEncoded(m, suffix);
    } else {
      var head := VarintBytes(|m|);
      var s := Encoded(m) + suffix;
      assert s == head + (m + suffix);
      DecodeEncoded(|m|, m + suffix);
      if |m| < Pow128(MAX_GROUPS) {
        assert s[|head|..] == m + suffix;
        if ReadsRest(m) {
          assert Taken(m + suffix, Masked(|m|)) == m + suffix;
          assert suffix == [] ==> m + suffix == m;
        } else if Masked(|m|) >= -1 {
          assert |Taken(m + suffix, Masked(|m|))| != |m|;
        }
      }
    }
  }

  /** A file that breaks off inside a message: a cut length is no message, but a message that is
      cut behind its length is returned as if it were whole. */
  lemma BrokenOff(m: Message, k: nat)
    requires 0 < |m| < TWO32 && k < |Encoded(m)|
    ensures var head := VarintBytes(|m|);
            ReadOne(Encoded(m)[..k]) == if k < |head| then (NoMessage, []) else (Read(m[..k - |head|]), [])
  {
    var head, s := VarintBytes(|m|), Encoded(m)[..k];
    EncodedForm(|m|);
    if k < |head| {
      assert s == head[..k];
      EncodedLength(|m|, MAX_GROUPS);
      Limit();
      DecodeFromEnds(s, 0, 0);
    } else {
      assert s == head + m[..k - |head|];
      RoundTrip(|m|, m[..k - |head|]);
      assert s[|head|..] == m[..k - |head|];
    }
  }
}
