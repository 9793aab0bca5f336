/** The consensus write-ahead log: record format, decoding, repair and search (consensus/wal.go, consensus/state.go). */
module Wal {
  import opened Options

  type Byte = b: int | 0 <= b < 256

  const MAX_MSG_SIZE_BYTES := 1048576 + 24
  const UINT32_RANGE := 0x1_0000_0000

  datatype Message = EndHeight(height: int) | Other(id: nat)
  datatype TimedMessage = TimedMessage(time: int, msg: Message)

  /** Payload encoding and checksum. A payload's length fits a 32-bit word. */
  datatype Codec = Codec(marshal: TimedMessage -> seq<Byte>, unmarshal: seq<Byte> -> Option<TimedMessage>,
    crc: seq<Byte> -> nat) {
    ghost predicate Lawful() {
      && (forall m :: unmarshal(marshal(m)) == Some(m) && 0 < |marshal(m)| < UINT32_RANGE)
      && (forall s :: crc(s) < UINT32_RANGE)
    }
  }

  // ----- big-endian words ----------------------------------------------------------------------

  function PutUint32(n: nat): (s: seq<Byte>)
    requires n < UINT32_RANGE
    ensures |s| == 4
  {
    [n / 0x100_0000, n / 0x1_0000 % 256, n / 256 % 256, n % 256]
  }

  function Uint32(s: seq<Byte>): (n: nat)
    requires |s| == 4
    ensures n < UINT32_RANGE
  {
    s[0] as int * 0x100_0000 + s[1] as int * 0x1_0000 + s[2] as int * 256 + s[3] as int
  }

  lemma WordRoundTrip(n: nat)
    requires n < UINT32_RANGE
    ensures Uint32(PutUint32(n)) == n
  {
    var a, b := n / 256, n / 0x1_0000;
    assert n == a * 256 + n % 256;
    assert a == b * 256 + a % 256;
    assert b == n / 0x100_0000 * 256 + b % 256;
  }

  /** The most significant byte comes first. */
  lemma BigEndian(n: nat, k: nat)
    requires n < UINT32_RANGE && k < 4
    ensures PutUint32(n)[k] as int == n / [0x100_0000, 0x1_0000, 0x100, 1][k] % 256
  {
  }

  // ----- encoding ------------------------------------------------------------------------------

  function Encode(c: Codec, m: TimedMessage): (r: Option<seq<Byte>>)
    requires c.Lawful()
    ensures r.Some? <==> Fits(c, m)
    ensures r.Some? ==> |r.value| == 8 + |c.marshal(m)|
  {
    var data := c.marshal(m);
    if |data| > MAX_MSG_SIZE_BYTES then None else Some(PutUint32(c.crc(data)) + PutUint32(|data|) + data)
  }

  ghost predicate Fits(c: Codec, m: TimedMessage) {
    |c.marshal(m)| <= MAX_MSG_SIZE_BYTES
  }

  ghost predicate AllFit(c: Codec, ms: seq<TimedMessage>) {
    forall m <- ms :: Fits(c, m)
  }

  ghost function EncodeAll(c: Codec, ms: seq<TimedMessage>): seq<Byte>
    requires c.Lawful() && AllFit(c, ms)
  {
    if ms == [] then [] else Encode(c, ms[0]).value + EncodeAll(c, ms[1..])
  }

  /** The record is assembled in a buffer: checksum, length, payload. */
  method EncodeRecord(c: Codec, m: TimedMessage) returns (r: Option<seq<Byte>>)
    requires c.Lawful()
    ensures r == Encode(c, m)
  {
    var data := c.marshal(m);
    var crc := c.crc(data);
    var length := |data|;
    if length > MAX_MSG_SIZE_BYTES {
      return None;
    }
    var msg := new Byte[8 + length];
    WriteAt(msg, 0, PutUint32(crc));
    WriteAt(msg, 4, PutUint32(length));
    WriteAt(msg, 8, data);
    assert msg[..] == msg[0..4] + msg[4..8] + msg[8..8 + length];
    return Some(msg[..]);
  }

  method WriteAt(a: array<Byte>, at: nat, s: seq<Byte>)
    requires at + |s| <= a.Length
    modifies a
    ensures a[at..at + |s|] == s && a[..at] == old(a[..at]) && a[at + |s|..] == old(a[at + |s|..])
    ensures forall i, j :: 0 <= i <= j <= at ==> a[i..j] == old(a[i..j])
  {
    for k := 0 to |s|
      invariant a[at..at + k] == s[..k]
      invariant forall i :: 0 <= i < at || at + |s| <= i < a.Length ==> a[i] == old(a[i])
    {
      a[at + k] := s[k];
    }
  }

  // ----- decoding ------------------------------------------------------------------------------

  /** A plain file may return fewer bytes than asked for; a reader over a group of files does not. */
  datatype ReaderKind = File | Group

  datatype ReadResult = Got(data: seq<Byte>, rest: seq<Byte>) | AtEnd | Failed(left: seq<Byte>)

  /** One Read into a zeroed buffer of `n` bytes. */
  function Read(kind: ReaderKind, s: seq<Byte>, n: nat): (r: ReadResult)
    ensures r.Got? ==> |r.data| == n && |r.rest| <= |s| && (n > 0 ==> |r.rest| < |s|)
    ensures r.Failed? ==> r.left == s
  {
    if n == 0 then if kind == Group then Failed(s) else Got([], s)
    else if n <= |s| then Got(s[..n], s[n..])
    else if kind == Group || |s| == 0 then AtEnd
    else Got(s + seq(n - |s|, _ => 0), [])
  }

  datatype Decoded = Entry(m: TimedMessage, rest: seq<Byte>) | Eof | Corrupt(left: seq<Byte>)

  function Decode(c: Codec, kind: ReaderKind, s: seq<Byte>): (r: Decoded)
    ensures r.Entry? ==> |r.rest| < |s|
    ensures r.Corrupt? ==> |r.left| < |s|
  {
    match Read(kind, s, 4)
    case AtEnd => Eof
    case Failed(_) => Eof                             // four bytes were asked for: cannot happen
    case Got(crc, s1) =>
      match Read(kind, s1, 4)
      case AtEnd => Corrupt([])
      case Failed(_) => Corrupt([])
      case Got(len, s2) =>
        if Uint32(len) > MAX_MSG_SIZE_BYTES then Corrupt(s2)
        else
          match Read(kind, s2, Uint32(len))
          case AtEnd => Corrupt([])
          case Failed(left) => Corrupt(left)
          case Got(data, s3) =>
            if c.crc(data) != Uint32(crc) || c.unmarshal(data).None? then Corrupt(s3)
            else Entry(c.unmarshal(data).value, s3)
  }

  /** Everything up to the first record that does not decode, and whether that was a clean end. */
  datatype Log = Log(messages: seq<TimedMessage>, clean: bool)

  function DecodeAll(c: Codec, kind: ReaderKind, s: seq<Byte>): Log
    decreases |s|
  {
    match Decode(c, kind, s)
    case Eof => Log([], true)
    case Corrupt(_) => Log([], false)
    case Entry(m, rest) => var log := DecodeAll(c, kind, rest); Log([m] + log.messages, log.clean)
  }

  lemma DecodeEncoded(c: Codec, kind: ReaderKind, m: TimedMessage, rest: seq<Byte>)
    requires c.Lawful() && Fits(c, m)
    ensures Encode(c, m).Some? && Decode(c, kind, Encode(c, m).value + rest) == Entry(m, rest)
  {
    var data := c.marshal(m);
    var s := Encode(c, m).value + rest;
    WordRoundTrip(c.crc(data));
    WordRoundTrip(|data|);
    hide PutUint32, Uint32;
    assert s[..4] == PutUint32(c.crc(data));
    assert s[4..] == PutUint32(|data|) + data + rest;
    assert s[4..][..4] == PutUint32(|data|) && s[4..][4..] == data + rest;
    assert (data + rest)[..|data|] == data && (data + rest)[|data|..] == rest;
  }

  /** The intact records before any damage are all read. */
  lemma {:induction false} IntactPrefixIsRead(c: Codec, kind: ReaderKind, ms: seq<TimedMessage>, tail: seq<Byte>)
    requires c.Lawful() && AllFit(c, ms)
    ensures var log := DecodeAll(c, kind, EncodeAll(c, ms) + tail); var t := DecodeAll(c, kind, tail);
            log.messages == ms + t.messages && log.clean == t.clean
  {
    hide Encode, Decode, Fits;
    if ms == [] {
      assert EncodeAll(c, ms) + tail == tail;
    } else {
      DecodeEncoded(c, kind, ms[0], EncodeAll(c, ms[1..]) + tail);
      assert EncodeAll(c, ms) + tail == Encode(c, ms[0]).value + (EncodeAll(c, ms[1..]) + tail);
      IntactPrefixIsRead(c, kind, ms[1..], tail);
    }
  }

  /** Decoding a written log gives back its messages and then the end. */
  lemma RoundTrip(c: Codec, kind: ReaderKind, ms: seq<TimedMessage>)
    requires c.Lawful() && AllFit(c, ms)
    ensures DecodeAll(c, kind, EncodeAll(c, ms)) == Log(ms, true)
  {
    IntactPrefixIsRead(c, kind, ms, []);
    assert EncodeAll(c, ms) + [] == EncodeAll(c, ms);
    assert DecodeAll(c, kind, []) == Log([], true);
  }

  /** A record cut short is not read by a group reader, whatever part of it was written. */
  lemma TornRecordIsLost(c: Codec, m: TimedMessage, k: nat)
    requires c.Lawful() && Fits(c, m) && k < |Encode(c, m).value|
    ensures DecodeAll(c, Group, Encode(c, m).value[..k]) == Log([], k < 4)
  {
    var data := c.marshal(m);
    var s := Encode(c, m).value[..k];
    WordRoundTrip(|data|);
    hide PutUint32, Uint32;
    if k >= 8 {
      assert s[4..][..4] == PutUint32(|data|);
    }
  }

  /** A crash that cuts the log anywhere loses only the messages that were not written completely. */
  lemma {:induction false} TornLog(c: Codec, ms: seq<TimedMessage>, k: nat) returns (n: nat)
    requires c.Lawful() && AllFit(c, ms) && k <= |EncodeAll(c, ms)|
    ensures n <= |ms| && AllFit(c, ms[..n]) && |EncodeAll(c, ms[..n])| <= k
    ensures n < |ms| ==> AllFit(c, ms[..n + 1]) && k < |EncodeAll(c, ms[..n + 1])|
    ensures DecodeAll(c, Group, EncodeAll(c, ms)[..k]).messages == ms[..n]
    decreases |ms|
  {
    hide Encode, Decode;
    if ms == [] {
      return 0;
    }
    var first := Encode(c, ms[0]).value;
    if k < |first| {
      assert EncodeAll(c, ms)[..k] == first[..k];
      TornRecordIsLost(c, ms[0], k);
      assert ms[..1] == [ms[0]] && ms[..1][1..] == [];
      assert EncodeAll(c, ms[..1]) == first + EncodeAll(c, ms[..1][1..]);
      return 0;
    }
    var n0 := TornLog(c, ms[1..], k - |first|);
    n := n0 + 1;
    assert EncodeAll(c, ms)[..k] == first + EncodeAll(c, ms[1..])[..k - |first|];
    DecodeEncoded(c, Group, ms[0], EncodeAll(c, ms[1..])[..k - |first|]);
    assert ms[..n][1..] == ms[1..][..n0] && ms[..n] == [ms[0]] + ms[1..][..n0];
    if n < |ms| {
      assert ms[..n + 1][1..] == ms[1..][..n0 + 1];
    }
  }

  // ----- repair --------------------------------------------------------------------------------

  /** Re-encodes what decodes; fails if a decoded message does not fit a record. */
  ghost function Repair(c: Codec, s: seq<Byte>): Option<seq<Byte>>
    requires c.Lawful()
  {
    var ms := DecodeAll(c, File, s).messages;
    if AllFit(c, ms) then Some(EncodeAll(c, ms)) else None
  }

  /** The repaired log reads cleanly, by either reader, as the messages that were readable before. */
  lemma RepairIsClean(c: Codec, kind: ReaderKind, s: seq<Byte>)
    requires c.Lawful() && Repair(c, s).Some?
    ensures DecodeAll(c, kind, Repair(c, s).value) == Log(DecodeAll(c, File, s).messages, true)
  {
    RoundTrip(c, kind, DecodeAll(c, File, s).messages);
  }

  lemma RepairIsIdempotent(c: Codec, s: seq<Byte>)
    requires c.Lawful() && Repair(c, s).Some?
    ensures Repair(c, Repair(c, s).value) == Repair(c, s)
  {
    RepairIsClean(c, File, s);
  }

  /** Repairing a log with a damaged tail keeps every record before the damage. */
  lemma RepairKeepsIntactPrefix(c: Codec, ms: seq<TimedMessage>, tail: seq<Byte>)
    requires c.Lawful() && AllFit(c, ms) && Decode(c, File, tail).Corrupt?
    ensures Repair(c, EncodeAll(c, ms) + tail) == Some(EncodeAll(c, ms))
  {
    IntactPrefixIsRead(c, File, ms, tail);
    assert ms + [] == ms;
  }

  lemma {:induction false} EncodeAppend(c: Codec, ms: seq<TimedMessage>, m: TimedMessage)
    requires c.Lawful() && AllFit(c, ms) && Fits(c, m)
    ensures EncodeAll(c, ms + [m]) == EncodeAll(c, ms) + Encode(c, m).value
  {
    hide Encode, Fits;
    if ms == [] {
      assert ms + [m] == [m] && [m][1..] == [];
    } else {
      EncodeAppend(c, ms[1..], m);
      assert (ms + [m])[1..] == ms[1..] + [m];
    }
  }

  /** A decoder and the bytes it has not read yet. */
  class Decoder {
    const codec: Codec
    const kind: ReaderKind
    var rest: seq<Byte>

    constructor (codec: Codec, kind: ReaderKind, s: seq<Byte>)
      ensures this.codec == codec && this.kind == kind && rest == s
    {
      this.codec, this.kind, this.rest := codec, kind, s;
    }

    method ReadBytes(n: nat) returns (r: ReadResult)
      modifies this`rest
      ensures r == Read(kind, old(rest), n)
      ensures rest == match r { case Got(_, left) => left case AtEnd => [] case Failed(left) => left }
    {
      if n == 0 {
        return if kind == Group then Failed(rest) else Got([], rest);
      }
      if n <= |rest| {
        r := Got(rest[..n], rest[n..]);
        rest := rest[n..];
        return;
      }
      if kind == Group || |rest| == 0 {
        rest := [];
        return AtEnd;
      }
      r := Got(rest + seq(n - |rest|, _ => 0), []);
      rest := [];
    }

    method Next() returns (r: Decoded)
      modifies this`rest
      ensures r == Decode(codec, kind, old(rest))
      ensures rest == match r { case Entry(_, left) => left case Eof => [] case Corrupt(left) => left }
    {
      hide Uint32;
      var crc := ReadBytes(4);
      if !crc.Got? {
        return Eof;
      }
      var length := ReadBytes(4);
      if !length.Got? {
        return Corrupt([]);
      }
      if Uint32(length.data) > MAX_MSG_SIZE_BYTES {
        return Corrupt(rest);
      }
      var data := ReadBytes(Uint32(length.data));
      if !data.Got? {
        return Corrupt(rest);
      }
      if codec.crc(data.data) != Uint32(crc.data) {
        return Corrupt(rest);
      }
      var m := codec.unmarshal(data.data);
      if m.None? {
        return Corrupt(rest);
      }
      return Entry(m.value, rest);
    }
  }

  /** repairWalFile: copies records until one does not decode. */
  method RepairFile(c: Codec, s: seq<Byte>) returns (r: Option<seq<Byte>>)
    requires c.Lawful()
    ensures r == Repair(c, s)
  {
    hide Encode, Decode, Fits;
    var dec := new Decoder(c, File, s);
    var out: seq<Byte> := [];
    ghost var done: seq<TimedMessage> := [];
    while true
      invariant fresh(dec) && dec.codec == c && dec.kind == File
      invariant AllFit(c, done) && out == EncodeAll(c, done)
      invariant DecodeAll(c, File, s).messages == done + DecodeAll(c, File, dec.rest).messages
      decreases |dec.rest|
    {
      var next := dec.Next();
      if !next.Entry? {
        assert done + [] == done;
        return Some(out);
      }
      var record := EncodeRecord(c, next.m);
      if record.None? {
        assert next.m in DecodeAll(c, File, s).messages;
        return None;
      }
      EncodeAppend(c, done, next.m);
      done := done + [next.m];
      out := out + record.value;
    }
  }
}
