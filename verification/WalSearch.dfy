/** The search for the end of a height over the rotated files of the log (consensus/wal.go). */
module WalSearch {
  import opened Wal

  /** What a group reader opened at file `i` reads: that file and all newer ones. */
  function GroupBytes(files: seq<seq<Byte>>, i: nat): seq<Byte>
    requires i <= |files|
    decreases |files| - i
  {
    if i == |files| then [] else files[i] + GroupBytes(files, i + 1)
  }

  predicate IsMarker(m: TimedMessage, h: int) {
    m.msg == EndHeight(h)
  }

  predicate PositiveMarker(m: TimedMessage) {
    m.msg.EndHeight? && 0 < m.msg.height
  }

  ghost predicate HasMarker(ms: seq<TimedMessage>, h: int) {
    exists i :: 0 <= i < |ms| && IsMarker(ms[i], h)
  }

  /** Heights end once and in order. A marker for height 0 is written whenever the log starts with an empty file. */
  ghost predicate MarkersIncrease(ms: seq<TimedMessage>) {
    && (forall m <- ms :: m.msg.EndHeight? ==> 0 <= m.msg.height)
    && (forall i, j :: 0 <= i < j < |ms| && PositiveMarker(ms[i]) && PositiveMarker(ms[j]) ==>
          ms[i].msg.height < ms[j].msg.height)
  }

  /** The height of the last marker, or -1. */
  ghost function LastMarker(ms: seq<TimedMessage>): int {
    if ms == [] then -1
    else
      var m := ms[|ms| - 1];
      if m.msg.EndHeight? then m.msg.height else LastMarker(ms[..|ms| - 1])
  }

  lemma {:induction false} LastMarkerIsLast(ms: seq<TimedMessage>) returns (p: nat)
    requires forall m <- ms :: m.msg.EndHeight? ==> 0 <= m.msg.height
    ensures p <= |ms| && forall i :: p < i < |ms| ==> !ms[i].msg.EndHeight?
    ensures if LastMarker(ms) == -1 then p == |ms| && forall i :: 0 <= i < |ms| ==> !ms[i].msg.EndHeight?
            else p < |ms| && IsMarker(ms[p], LastMarker(ms))
  {
    if ms == [] {
      return 0;
    }
    var n := |ms| - 1;
    if ms[n].msg.EndHeight? {
      assert ms[n] in ms;
      return n;
    }
    p := LastMarkerIsLast(ms[..n]);
    if LastMarker(ms) == -1 {
      p := |ms|;
    }
    assert forall i :: 0 <= i < n ==> ms[..n][i] == ms[i];
  }

  /** Once a lower height has been seen last, a higher one cannot be anywhere. */
  lemma LowerLastMeansAbsent(older: seq<TimedMessage>, newer: seq<TimedMessage>, h: int)
    requires MarkersIncrease(older + newer) && 0 < LastMarker(newer) < h
    ensures !HasMarker(older + newer, h)
  {
    var ms := older + newer;
    forall m <- newer
      ensures m.msg.EndHeight? ==> 0 <= m.msg.height
    {
      assert m in ms;
    }
    var p := LastMarkerIsLast(newer);
    assert ms[|older| + p] == newer[p];
    forall i | 0 <= i < |ms|
      ensures !IsMarker(ms[i], h)
    {
      if i > |older| + p {
        assert ms[i] == newer[i - |older|];
      }
    }
  }

  // ----- what a group reader gets out of arbitrary bytes ------------------------------------------

  /** A message and the bytes that follow it. */
  datatype Item = Item(m: TimedMessage, rest: seq<Byte>)

  /**
   * All messages up to the end, or up to the first corrupt entry (`clean` is false) unless such entries are skipped.
   */
  datatype Reading = Reading(items: seq<Item>, clean: bool)

  function ReadOn(c: Codec, skip: bool, s: seq<Byte>): Reading
    decreases |s|
  {
    match Decode(c, Group, s)
    case Eof => Reading([], true)
    case Corrupt(left) => if skip then ReadOn(c, skip, left) else Reading([], false)
    case Entry(m, rest) => var r := ReadOn(c, skip, rest); Reading([Item(m, rest)] + r.items, r.clean)
  }

  function Contents(items: seq<Item>): (ms: seq<TimedMessage>)
    ensures |ms| == |items| && forall i :: 0 <= i < |ms| ==> ms[i] == items[i].m
  {
    seq(|items|, i requires 0 <= i < |items| => items[i].m)
  }

  lemma {:induction false} SkippingIsClean(c: Codec, s: seq<Byte>)
    ensures ReadOn(c, true, s).clean
    decreases |s|
  {
    match Decode(c, Group, s)
    case Eof =>
    case Corrupt(left) => SkippingIsClean(c, left);
    case Entry(_, rest) => SkippingIsClean(c, rest);
  }

  /** Whole records are read in order, whatever follows them. */
  lemma {:induction false} ReadIntact(c: Codec, skip: bool, ms: seq<TimedMessage>, tail: seq<Byte>)
    requires c.Lawful() && AllFit(c, ms)
    ensures var r, t := ReadOn(c, skip, EncodeAll(c, ms) + tail), ReadOn(c, skip, tail);
            && r.clean == t.clean && |r.items| == |ms| + |t.items| && r.items[|ms|..] == t.items
            && Contents(r.items) == ms + Contents(t.items)
    decreases |ms|
  {
    hide Encode, Decode, Fits;
    if ms == [] {
      assert EncodeAll(c, ms) + tail == tail;
    } else {
      var rest := EncodeAll(c, ms[1..]) + tail;
      DecodeEncoded(c, Group, ms[0], rest);
      assert EncodeAll(c, ms) + tail == Encode(c, ms[0]).value + rest;
      ReadIntact(c, skip, ms[1..], tail);
      var r := ReadOn(c, skip, rest);
      assert ([Item(ms[0], rest)] + r.items)[|ms|..] == r.items[|ms| - 1..];
    }
  }

  /**
   * A log whose last record was cut short reads as the records before it; without skipping, a cut past four bytes is an
   * error.
   */
  lemma ReadTorn(c: Codec, skip: bool, ms: seq<TimedMessage>, m: TimedMessage, k: nat)
    requires c.Lawful() && AllFit(c, ms) && Fits(c, m) && k < |Encode(c, m).value|
    ensures var r := ReadOn(c, skip, EncodeAll(c, ms) + Encode(c, m).value[..k]);
            Contents(r.items) == ms && r.clean == (skip || k < 4)
  {
    ReadIntact(c, skip, ms, Encode(c, m).value[..k]);
    assert ReadOn(c, skip, Encode(c, m).value[..k]) == Reading([], skip || k < 4) by { CutRecord(c, skip, m, k); }
    assert ms + [] == ms;
  }

  lemma CutRecord(c: Codec, skip: bool, m: TimedMessage, k: nat)
    requires c.Lawful() && Fits(c, m) && k < |Encode(c, m).value|
    ensures ReadOn(c, skip, Encode(c, m).value[..k]) == Reading([], skip || k < 4)
  {
    var data := c.marshal(m);
    var s := Encode(c, m).value[..k];
    WordRoundTrip(|data|);
    hide PutUint32, Uint32;
    if k >= 8 {
      assert s[4..][..4] == PutUint32(|data|);
    }
    if k >= 4 {
      assert Decode(c, Group, s) == Corrupt([]);
      assert ReadOn(c, skip, []) == Reading([], true);
    }
  }

  // ----- the rotated files -----------------------------------------------------------------------

  /** Every file but the newest holds whole records; the newest holds anything. */
  ghost predicate OlderIntact(c: Codec, files: seq<seq<Byte>>, log: seq<seq<TimedMessage>>) {
    && c.Lawful() && |files| == |log| + 1
    && forall i :: 0 <= i < |log| ==> AllFit(c, log[i]) && files[i] == EncodeAll(c, log[i])
  }

  /** What is read from file `i` on. */
  function ReadFrom(c: Codec, skip: bool, files: seq<seq<Byte>>, i: nat): Reading
    requires i <= |files|
  {
    ReadOn(c, skip, GroupBytes(files, i))
  }

  function MessagesFrom(c: Codec, skip: bool, files: seq<seq<Byte>>, i: nat): seq<TimedMessage>
    requires i <= |files|
  {
    Contents(ReadFrom(c, skip, files, i).items)
  }

  lemma OneFileMore(c: Codec, skip: bool, files: seq<seq<Byte>>, log: seq<seq<TimedMessage>>, i: nat)
    requires OlderIntact(c, files, log) && i < |log|
    ensures MessagesFrom(c, skip, files, i) == log[i] + MessagesFrom(c, skip, files, i + 1)
    ensures var r, t := ReadFrom(c, skip, files, i), ReadFrom(c, skip, files, i + 1);
            r.clean == t.clean && |r.items| == |log[i]| + |t.items| && r.items[|log[i]|..] == t.items
  {
    ReadIntact(c, skip, log[i], GroupBytes(files, i + 1));
  }

  lemma NewestFile(c: Codec, skip: bool, files: seq<seq<Byte>>)
    requires files != []
    ensures ReadFrom(c, skip, files, |files| - 1) == ReadOn(c, skip, files[|files| - 1])
  {
    assert GroupBytes(files, |files|) == [];
    assert files[|files| - 1] + [] == files[|files| - 1];
  }

  /** What older files add comes first, and changes nothing after it. */
  lemma {:induction false} OlderItems(c: Codec, skip: bool, files: seq<seq<Byte>>, log: seq<seq<TimedMessage>>, i: nat)
    returns (older: seq<TimedMessage>)
    requires OlderIntact(c, files, log) && i <= |log|
    ensures MessagesFrom(c, skip, files, 0) == older + MessagesFrom(c, skip, files, i)
    ensures var r, t := ReadFrom(c, skip, files, 0), ReadFrom(c, skip, files, i);
            r.clean == t.clean && |r.items| == |older| + |t.items| && r.items[|older|..] == t.items
  {
    hide ReadFrom, Contents;
    if i == 0 {
      older := [];
    } else {
      var o := OlderItems(c, skip, files, log, i - 1);
      OneFileMore(c, skip, files, log, i - 1);
      older := o + log[i - 1];
      var r, t := ReadFrom(c, skip, files, 0), ReadFrom(c, skip, files, i - 1);
      assert r.items[|older|..] == t.items[|log[i - 1]|..];
    }
  }

  /** What the scan of one group knows: no hit so far, and the last marker it saw. */
  ghost predicate Scanned(ms: seq<TimedMessage>, height: int, before: int, last: int) {
    !HasMarker(ms, height) && last == if LastMarker(ms) == -1 then before else LastMarker(ms)
  }

  lemma ScanOne(ms: seq<TimedMessage>, m: TimedMessage, height: int, before: int, last: int)
    requires Scanned(ms, height, before, last) && !IsMarker(m, height) && (m.msg.EndHeight? ==> 0 <= m.msg.height)
    ensures Scanned(ms + [m], height, before, if m.msg.EndHeight? then m.msg.height else last)
  {
    assert (ms + [m])[..|ms|] == ms;
  }

  lemma NothingScanned(height: int, before: int)
    ensures Scanned([], height, before, before)
  {
  }

  lemma ScannedHasNone(ms: seq<TimedMessage>, height: int, before: int, last: int)
    requires Scanned(ms, height, before, last)
    ensures !HasMarker(ms, height)
  {
  }

  /** No marker in the longer scan means none in its newer part. */
  lemma NoMarkerInPart(older: seq<TimedMessage>, newer: seq<TimedMessage>)
    requires (forall m <- older + newer :: m.msg.EndHeight? ==> 0 <= m.msg.height) && LastMarker(older + newer) == -1
    ensures LastMarker(newer) == -1
  {
    var p := LastMarkerIsLast(older + newer);
    forall m <- newer
      ensures m.msg.EndHeight? ==> 0 <= m.msg.height
    {
      assert m in older + newer;
    }
    assert forall i :: 0 <= i < |newer| ==> newer[i] == (older + newer)[|older| + i];
    var q := LastMarkerIsLast(newer);
  }

  /** One more file scanned without a hit. */
  lemma NextFile(older: seq<TimedMessage>, newer: seq<TimedMessage>, height: int, before: int, last: int)
    requires forall m <- older + newer :: m.msg.EndHeight? ==> 0 <= m.msg.height
    requires Scanned(newer, height, -1, before) && Scanned(older + newer, height, before, last)
    ensures Scanned(older + newer, height, -1, last)
  {
    hide HasMarker;
    if LastMarker(older + newer) == -1 {
      NoMarkerInPart(older, newer);
    }
  }

  lemma HeightsOk(older: seq<TimedMessage>, newer: seq<TimedMessage>)
    requires MarkersIncrease(older + newer)
    ensures forall m <- newer :: m.msg.EndHeight? ==> 0 <= m.msg.height
  {
    assert forall m <- newer :: m in older + newer;
  }

  /** Once a lower height has been seen last, the one sought is in no older file. */
  lemma EarlyStopIsSound(older: seq<TimedMessage>, newer: seq<TimedMessage>, height: int, last: int)
    requires MarkersIncrease(older + newer) && 0 < last < height && Scanned(newer, height, -1, last)
    ensures !HasMarker(older + newer, height)
  {
    LowerLastMeansAbsent(older, newer, height);
  }

  /** The reader stands just after the first such marker of the reading. */
  ghost predicate JustAfter(r: Reading, height: int, at: nat, rest: seq<Byte>) {
    && at < |r.items| && IsMarker(r.items[at].m, height) && rest == r.items[at].rest
  }

  lemma FoundInPart(older: seq<TimedMessage>, r: Reading, t: Reading, height: int, k: nat, rest: seq<Byte>)
    returns (at: nat)
    requires |r.items| == |older| + |t.items| && r.items[|older|..] == t.items && JustAfter(t, height, k, rest)
    ensures JustAfter(r, height, at, rest) && HasMarker(Contents(r.items), height)
  {
    at := |older| + k;
    assert r.items[at] == t.items[k];
    assert IsMarker(Contents(r.items)[at], height);
  }

  datatype SearchResult = Found(rest: seq<Byte>) | NotFound | Failed

  /** The reader has taken the first `at` messages of the reading and has `s` before it. */
  ghost predicate Remaining(c: Codec, skip: bool, all: Reading, at: nat, s: seq<Byte>) {
    at <= |all.items| && ReadOn(c, skip, s) == Reading(all.items[at..], all.clean)
  }

  /** The first `at` messages have been scanned. */
  ghost predicate ScannedUpto(ms: seq<TimedMessage>, at: nat, height: int, before: int, last: int) {
    at <= |ms| && Scanned(ms[..at], height, before, last)
  }

  lemma ScanStart(ms: seq<TimedMessage>, height: int, before: int)
    ensures ScannedUpto(ms, 0, height, before, before)
  {
    NothingScanned(height, before);
    assert ms[..0] == [];
  }

  lemma ScanNext(ms: seq<TimedMessage>, at: nat, height: int, before: int, last: int)
    requires ScannedUpto(ms, at, height, before, last) && at < |ms| && !IsMarker(ms[at], height)
    requires forall m <- ms :: m.msg.EndHeight? ==> 0 <= m.msg.height
    ensures ScannedUpto(ms, at + 1, height, before, if ms[at].msg.EndHeight? then ms[at].msg.height else last)
  {
    hide Scanned;
    assert ms[at] in ms && ms[..at + 1] == ms[..at] + [ms[at]];
    ScanOne(ms[..at], ms[at], height, before, last);
  }

  lemma ScanEnd(ms: seq<TimedMessage>, height: int, before: int, last: int)
    requires ScannedUpto(ms, |ms|, height, before, last)
    ensures Scanned(ms, height, before, last) && !HasMarker(ms, height)
  {
    hide Scanned;
    assert ms[..|ms|] == ms;
    ScannedHasNone(ms, height, before, last);
  }

  lemma ReadStep(c: Codec, skip: bool, all: Reading, at: nat, s: seq<Byte>)
    requires Remaining(c, skip, all, at, s)
    ensures match Decode(c, Group, s)
            case Eof => at == |all.items| && all.clean
            case Corrupt(left) => if skip then Remaining(c, skip, all, at, left) else at == |all.items| && !all.clean
            case Entry(m, rest) =>
              at < |all.items| && all.items[at] == Item(m, rest) && Remaining(c, skip, all, at + 1, rest)
  {
    hide Decode;
    if Decode(c, Group, s).Entry? {
      var m, rest := Decode(c, Group, s).m, Decode(c, Group, s).rest;
      assert all.items[at..] == [Item(m, rest)] + ReadOn(c, skip, rest).items;
      assert all.items[at] == all.items[at..][0];
      assert ReadOn(c, skip, rest).items == all.items[at..][1..] == all.items[at + 1..];
    }
  }

  /** Scans one group of arbitrary bytes; `at` is the position of the hit. */
  method ScanGroup(c: Codec, s: seq<Byte>, height: int, before: int, skip: bool)
    returns (r: SearchResult, last: int, ghost at: nat)
    requires forall m <- Contents(ReadOn(c, skip, s).items) :: m.msg.EndHeight? ==> 0 <= m.msg.height
    ensures r.Found? <==> HasMarker(Contents(ReadOn(c, skip, s).items), height)
    ensures r.Found? ==> JustAfter(ReadOn(c, skip, s), height, at, r.rest)
    ensures r.Failed? <==> !r.Found? && !ReadOn(c, skip, s).clean
    ensures r.NotFound? ==> Scanned(Contents(ReadOn(c, skip, s).items), height, before, last)
  {
    last, at := before, 0;
    ghost var all := ReadOn(c, skip, s);
    ghost var ms := Contents(all.items);
    var dec := new Decoder(c, Group, s);
    ScanStart(ms, height, before);
    assert Remaining(c, skip, all, 0, s) by { assert all.items[0..] == all.items; }
    hide Decode, Scanned, ScannedUpto, ReadOn, Remaining, HasMarker;
    while true
      invariant fresh(dec) && dec.codec == c && dec.kind == Group
      invariant Remaining(c, skip, all, at, dec.rest) && ScannedUpto(ms, at, height, before, last)
      decreases |dec.rest|
    {
      ReadStep(c, skip, all, at, dec.rest);
      var next := dec.Next();
      match next {
        case Eof =>
          ScanEnd(ms, height, before, last);
          return NotFound, last, at;
        case Corrupt(_) =>
          if !skip {
            ScanEnd(ms, height, before, last);
            return SearchResult.Failed, last, at;
          }
        case Entry(m, rest) =>
          if m.msg.EndHeight? && m.msg.height == height {
            MarkerAt(ms, height, at);
            return Found(dec.rest), last, at;
          }
          ScanNext(ms, at, height, before, last);
          if m.msg.EndHeight? {
            last := m.msg.height;
          }
          at := at + 1;
      }
    }
  }

  lemma MarkerAt(ms: seq<TimedMessage>, height: int, i: nat)
    requires i < |ms| && IsMarker(ms[i], height)
    ensures HasMarker(ms, height)
  {
  }

  /**
   * Newest file first, with an early stop. The newest file may hold anything, such as a record that a crash cut short.
   * The marker is found exactly when it is in the readable log; only a search that does not skip can fail, and does so
   * exactly when the newest file is corrupt and the marker does not come before that.
   */
  method SearchForEndHeight(c: Codec, files: seq<seq<Byte>>, height: int, skip: bool, ghost log: seq<seq<TimedMessage>>)
    returns (r: SearchResult, ghost at: nat)
    requires OlderIntact(c, files, log) && MarkersIncrease(MessagesFrom(c, skip, files, 0))
    ensures r.Failed? <==>
              !ReadOn(c, skip, files[|log|]).clean && !HasMarker(Contents(ReadOn(c, skip, files[|log|]).items), height)
    ensures r.Found? <==> !r.Failed? && HasMarker(MessagesFrom(c, skip, files, 0), height)
    ensures r.Found? ==> JustAfter(ReadFrom(c, skip, files, 0), height, at, r.rest)
    ensures skip ==> !r.Failed?
  {
    hide Scanned, HasMarker, MarkersIncrease, JustAfter, ReadOn, Contents, GroupBytes;
    if skip {
      SkippingIsClean(c, files[|log|]);
    }
    NewestFile(c, skip, files);
    var lastHeightFound := -1;
    for index := |files| downto 0
      invariant index == |files| ==> lastHeightFound == -1
      invariant index < |files| ==> Scanned(MessagesFrom(c, skip, files, index), height, -1, lastHeightFound)
      invariant index < |files| ==> ReadFrom(c, skip, files, index).clean && ReadFrom(c, skip, files, |log|).clean
    {
      ghost var older := OlderItems(c, skip, files, log, index);
      HeightsOk(older, MessagesFrom(c, skip, files, index));
      ghost var before, k := lastHeightFound, 0;
      if index < |log| {
        OneFileMore(c, skip, files, log, index);
      }
      r, lastHeightFound, k := ScanGroup(c, GroupBytes(files, index), height, lastHeightFound, skip);
      if r.Found? {
        at := FoundInPart(older, ReadFrom(c, skip, files, 0), ReadFrom(c, skip, files, index), height, k, r.rest);
        return;
      }
      if r.Failed? {
        return r, 0;
      }
      if index < |log| {
        NextFile(log[index], MessagesFrom(c, skip, files, index + 1), height, before, lastHeightFound);
      }
      if lastHeightFound > 0 && lastHeightFound < height {
        EarlyStopIsSound(older, MessagesFrom(c, skip, files, index), height, lastHeightFound);
        return NotFound, 0;
      }
    }
    ScannedHasNone(MessagesFrom(c, skip, files, 0), height, -1, lastHeightFound);
    return NotFound, 0;
  }
}
