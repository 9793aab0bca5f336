/** Pending and committed evidence (evidence/pool.go, evidence/verify.go). */
module EvidencePool {
  import opened EvidenceKeys

  type Key = string

  const SECOND := 1_000_000_000                       // times and durations are in nanoseconds

  datatype State = State(height: int, time: int, maxAgeNumBlocks: int, maxAgeDuration: int)

  /** Time of each block, which blocks are stored, and the evidence-specific verification. */
  datatype Chain = Chain(blockTime: nat -> int, hasBlock: nat -> bool,
    genuine: Evidence -> bool, bytes: seq<Evidence> -> nat) {
    ghost predicate Valid() {
      forall h: nat, k: nat :: h < k ==> blockTime(h) < blockTime(k)
    }
  }

  /**
   * Conflicting votes reported by consensus: can the validators of their height be loaded, and is the voter among them?
   */
  datatype Conflict = Conflict(height: nat, hash: string, loadable: bool, member: bool)

  /** Votes of a finished height, from which evidence can be formed. */
  predicate Ripe(c: Chain, s: State, v: Conflict) {
    v.member && (v.height == s.height || (v.height < s.height && v.loadable && c.hasBlock(v.height)))
  }

  /** What they prove, dated by the block of their height. */
  function Proven(c: Chain, v: Conflict): Evidence {
    Evidence(v.height, c.blockTime(v.height), v.hash, false)
  }

  /** Too old by number of blocks and by time. */
  predicate IsExpired(s: State, height: nat, time: int) {
    s.height - height > s.maxAgeNumBlocks && s.time - time > s.maxAgeDuration
  }

  /** What the store holds: every item under its own key, dated by its block. */
  ghost predicate Dated(c: Chain, pending: map<Key, Evidence>) {
    forall k <- pending ::
      && KeySuffix(pending[k]) == k && pending[k].height < HEIGHT_LIMIT
      && pending[k].time == c.blockTime(pending[k].height)
  }

  ghost predicate NoneExpired(s: State, pending: map<Key, Evidence>) {
    forall k <- pending :: !IsExpired(s, pending[k].height, pending[k].time)
  }

  /** Keys sort by height and times grow with it, so nothing after an unexpired item is expired. */
  lemma FirstUnexpired(c: Chain, s: State, pending: map<Key, Evidence>, k: Key)
    requires c.Valid() && Dated(c, pending) && IsFirst(k, pending.Keys)
    requires !IsExpired(s, pending[k].height, pending[k].time)
    ensures NoneExpired(s, pending)
  {
    forall x <- pending
      ensures !IsExpired(s, pending[x].height, pending[x].time)
    {
      if pending[x].height < pending[k].height {
        KeysOrderByHeight(pending[x], pending[k]);
        LexAsymmetric(x, k);
      }
    }
  }

  /** A mark says when the first of the items will be too old, give or take a second; without items it is now. */
  ghost predicate Marks(s: State, pending: map<Key, Evidence>, height: int, time: int) {
    if pending.Keys == {} then height == s.height && time == s.time
    else
      forall t: State :: t.maxAgeNumBlocks == s.maxAgeNumBlocks && t.maxAgeDuration == s.maxAgeDuration ==>
        (NoneExpired(t, pending) <==> t.height < height || t.time <= time - SECOND)
  }

  lemma MarkOfFirst(c: Chain, s: State, pending: map<Key, Evidence>, k: Key)
    requires c.Valid() && Dated(c, pending) && IsFirst(k, pending.Keys)
    ensures Marks(s, pending, pending[k].height + s.maxAgeNumBlocks + 1, pending[k].time + s.maxAgeDuration + SECOND)
  {
    hide Dated, IsFirst;
    FirstIsIn(k, pending.Keys);
    forall t: State | t.maxAgeNumBlocks == s.maxAgeNumBlocks && t.maxAgeDuration == s.maxAgeDuration
      ensures NoneExpired(t, pending) <==>
              t.height < pending[k].height + s.maxAgeNumBlocks + 1 || t.time <= pending[k].time + s.maxAgeDuration
    {
      if !IsExpired(t, pending[k].height, pending[k].time) {
        FirstUnexpired(c, t, pending, k);
      }
    }
  }

  /** None of what an update keeps is expired: pending items and those the reported votes add, but for `evs`. */
  ghost predicate KeptAreFresh(
    c: Chain, s: State, pending: map<Key, Evidence>, committed: set<Key>, buffer: seq<Conflict>, evs: seq<Evidence>)
  {
    && (forall k <- pending :: k in KeysOf(evs) || !IsExpired(s, pending[k].height, pending[k].time))
    && forall v <- buffer :: (Ripe(c, s, v) && KeySuffix(Proven(c, v)) !in pending.Keys + committed + KeysOf(evs)) ==>
         !IsExpired(s, v.height, c.blockTime(v.height))
  }

  /** What ProcessConsensusBuffer makes of the pending items and the reported votes. */
  ghost predicate Flushed(
    c: Chain, s: State, pending: map<Key, Evidence>, committed: set<Key>, buffer: seq<Conflict>,
    after: map<Key, Evidence>)
  {
    && pending.Keys <= after.Keys && (forall k <- pending :: after[k] == pending[k])
    && (forall v <- buffer :: Ripe(c, s, v) ==>
          KeySuffix(Proven(c, v)) in after || KeySuffix(Proven(c, v)) in committed)
    && (forall k <- after :: k in pending || exists v <- buffer :: Ripe(c, s, v) && after[k] == Proven(c, v))
  }

  lemma FreshAfterFlush(
    c: Chain, s: State, pending: map<Key, Evidence>, committed: set<Key>, buffer: seq<Conflict>, evs: seq<Evidence>,
    after: map<Key, Evidence>)
    requires Dated(c, after) && (forall k <- after :: k !in committed) && s.height < HEIGHT_LIMIT
    requires Flushed(c, s, pending, committed, buffer, after)
    ensures NoneExpired(s, after - KeysOf(evs)) <==> KeptAreFresh(c, s, pending, committed, buffer, evs)
  {
    hide KeySuffix, KeysOf, IsExpired;
    var kept := after - KeysOf(evs);
    if NoneExpired(s, kept) {
      forall k <- pending | k !in KeysOf(evs)
        ensures !IsExpired(s, pending[k].height, pending[k].time)
      {
        assert k in kept && kept[k] == pending[k];
      }
      forall v <- buffer | Ripe(c, s, v) && KeySuffix(Proven(c, v)) !in pending.Keys + committed + KeysOf(evs)
        ensures !IsExpired(s, v.height, c.blockTime(v.height))
      {
        var k := KeySuffix(Proven(c, v));
        assert k in kept && kept[k] == after[k];
        KeysAreInjective(after[k], Proven(c, v));
      }
    }
    if KeptAreFresh(c, s, pending, committed, buffer, evs) {
      forall k <- kept
        ensures !IsExpired(s, kept[k].height, kept[k].time)
      {
        if k !in pending {
          var v :| v in buffer && Ripe(c, s, v) && after[k] == Proven(c, v);
          assert k == KeySuffix(Proven(c, v));
        }
      }
    }
  }

  /** Exactly the expired items are gone. */
  ghost predicate Pruned(s: State, before: map<Key, Evidence>, after: map<Key, Evidence>) {
    && (forall k :: k in after <==> k in before && !IsExpired(s, before[k].height, before[k].time))
    && (forall k <- after :: after[k] == before[k])
  }

  /** Items go only because they are committed or expired. */
  ghost predicate Kept(s: State, before: map<Key, Evidence>, evs: seq<Evidence>, after: map<Key, Evidence>) {
    forall k <- before ::
      k in KeysOf(evs) || IsExpired(s, before[k].height, before[k].time) || (k in after && after[k] == before[k])
  }

  lemma KeptAfter(
    s: State, before: map<Key, Evidence>, flushed: map<Key, Evidence>, evs: seq<Evidence>, after: map<Key, Evidence>)
    requires before.Keys <= flushed.Keys && forall k <- before :: flushed[k] == before[k]
    requires after == flushed - KeysOf(evs) || Pruned(s, flushed - KeysOf(evs), after)
    ensures Kept(s, before, evs, after) && after.Keys !! KeysOf(evs)
  {
    hide KeysOf;
    forall k <- before | k !in KeysOf(evs)
      ensures IsExpired(s, before[k].height, before[k].time) || (k in after && after[k] == before[k])
    {
      assert k in flushed - KeysOf(evs);
    }
  }

  lemma FirstIsUnique(k: Key, x: Key, keys: set<Key>)
    requires IsFirst(k, keys) && IsFirst(x, keys)
    ensures k == x
  {
    if k != x {
      LexAsymmetric(k, x);
    }
  }

  /** Evidence in iteration order, as long as it fits; -1 stands for no limit. */
  ghost function Listing(
    c: Chain, pending: map<Key, Evidence>, keys: set<Key>, taken: seq<Evidence>, maxBytes: int): seq<Evidence>
    requires keys <= pending.Keys
    decreases |keys|
  {
    if keys == {} then taken
    else
      FirstExists(keys);
      var k :| IsFirst(k, keys);
      var more := taken + [pending[k]];
      if maxBytes != -1 && c.bytes(more) > maxBytes then taken
      else Listing(c, pending, keys - {k}, more, maxBytes)
  }

  predicate OldestFirst(evs: seq<Evidence>) {
    forall i, j :: 0 <= i < j < |evs| ==> evs[i].height <= evs[j].height
  }

  /** Each item comes before the next in the order of the database. */
  ghost predicate Ordered(evs: seq<Evidence>) {
    forall i, j :: 0 <= i < j < |evs| ==> LexLess(KeySuffix(evs[i]), KeySuffix(evs[j]))
  }

  /** Pending items in order and within the limit, and all of the others come after them. */
  ghost predicate Taken(c: Chain, pending: map<Key, Evidence>, rest: set<Key>, maxBytes: int, evs: seq<Evidence>) {
    && Ordered(evs) && (forall ev <- evs :: KeySuffix(ev) in pending && pending[KeySuffix(ev)] == ev)
    && rest == pending.Keys - KeysOf(evs) && (forall ev <- evs, k <- rest :: LexLess(KeySuffix(ev), k))
    && (maxBytes != -1 && evs != [] ==> c.bytes(evs) <= maxBytes)
  }

  /** The listing: as many as fit. If any is missing there is a limit, and the next one would exceed it. */
  ghost predicate Listed(c: Chain, pending: map<Key, Evidence>, maxBytes: int, evs: seq<Evidence>) {
    var rest := pending.Keys - KeysOf(evs);
    && Taken(c, pending, rest, maxBytes, evs)
    && (rest == {} || (maxBytes != -1 && exists k :: IsFirst(k, rest) && c.bytes(evs + [pending[k]]) > maxBytes))
  }

  lemma TakeFirst(c: Chain, pending: map<Key, Evidence>, rest: set<Key>, maxBytes: int, evs: seq<Evidence>, k: Key)
    requires Dated(c, pending) && Taken(c, pending, rest, maxBytes, evs) && IsFirst(k, rest)
    requires maxBytes == -1 || c.bytes(evs + [pending[k]]) <= maxBytes
    ensures Taken(c, pending, rest - {k}, maxBytes, evs + [pending[k]])
  {
    hide KeySuffix, LexLess;
    var more := evs + [pending[k]];
    assert more[..|evs|] == evs;
    KeysOfNext(more, |evs|);
    assert more[..|more|] == more;
  }

  lemma {:induction false} ListingFrom(
    c: Chain, pending: map<Key, Evidence>, rest: set<Key>, maxBytes: int, evs: seq<Evidence>)
    requires Dated(c, pending) && Taken(c, pending, rest, maxBytes, evs)
    ensures Listed(c, pending, maxBytes, Listing(c, pending, rest, evs, maxBytes))
    decreases |rest|
  {
    hide Dated, Taken;
    RestIsPending(c, pending, rest, maxBytes, evs);
    if rest != {} {
      FirstExists(rest);
      var k :| IsFirst(k, rest);
      ListingStep(c, pending, rest, evs, maxBytes, k);
      if maxBytes == -1 || c.bytes(evs + [pending[k]]) <= maxBytes {
        TakeFirst(c, pending, rest, maxBytes, evs, k);
        ListingFrom(c, pending, rest - {k}, maxBytes, evs + [pending[k]]);
      }
    }
  }

  lemma RestIsPending(c: Chain, pending: map<Key, Evidence>, rest: set<Key>, maxBytes: int, evs: seq<Evidence>)
    requires Taken(c, pending, rest, maxBytes, evs)
    ensures rest == pending.Keys - KeysOf(evs)
  {
  }

  /** Oldest first, in database order, each once, and as many as fit. */
  lemma ListingMeans(c: Chain, pending: map<Key, Evidence>, maxBytes: int)
    requires Dated(c, pending)
    ensures var evs := Listing(c, pending, pending.Keys, [], maxBytes);
            && Listed(c, pending, maxBytes, evs) && OldestFirst(evs)
            && (maxBytes == -1 ==> pending.Keys == KeysOf(evs))
  {
    assert Taken(c, pending, pending.Keys, maxBytes, []) by { NoKeys(); }
    ListingFrom(c, pending, pending.Keys, maxBytes, []);
    var evs := Listing(c, pending, pending.Keys, [], maxBytes);
    OrderedIsOldestFirst(c, pending, evs);
    hide KeySuffix;
    var rest := pending.Keys - KeysOf(evs);
    assert forall k <- pending.Keys :: k in KeysOf(evs) || k in rest;
  }

  lemma OrderedIsOldestFirst(c: Chain, pending: map<Key, Evidence>, evs: seq<Evidence>)
    requires Dated(c, pending) && Ordered(evs)
    requires forall ev <- evs :: KeySuffix(ev) in pending && pending[KeySuffix(ev)] == ev
    ensures OldestFirst(evs)
  {
    hide KeySuffix, LexLess;
    forall i, j | 0 <= i < j < |evs|
      ensures evs[i].height <= evs[j].height
    {
      assert evs[i] in evs && evs[j] in evs;
      if evs[j].height < evs[i].height {
        KeysOrderByHeight(evs[j], evs[i]);
        LexAsymmetric(KeySuffix(evs[i]), KeySuffix(evs[j]));
      }
    }
  }

  ghost function KeysOf(evs: seq<Evidence>): set<Key> {
    set ev | ev in evs :: KeySuffix(ev)
  }

  lemma KeysOfNext(evs: seq<Evidence>, i: nat)
    requires i < |evs|
    ensures KeysOf(evs[..i + 1]) == KeysOf(evs[..i]) + {KeySuffix(evs[i])}
  {
    hide KeySuffix;
    assert evs[..i + 1] == evs[..i] + [evs[i]];
  }

  datatype Operation = Add(ev: Evidence) | Check(evs: seq<Evidence>)
    | Report(votes: Conflict) | Advance(state: State, evs: seq<Evidence>)

  /** Each state is of a greater height than the one before. */
  predicate Growing(height: int, ops: seq<Operation>)
    decreases |ops|
  {
    if ops == [] then true
    else if ops[0].Advance? then height < ops[0].state.height && Growing(ops[0].state.height, ops[1..])
    else Growing(height, ops[1..])
  }

  class Pool {
    const chain: Chain
    var pending: map<Key, Evidence>
    var committed: set<Key>
    var size: int
    var state: State
    var buffer: seq<Conflict>
    var pruningHeight: int
    var pruningTime: int

    ghost predicate Valid()
      reads this`pending, this`committed, this`size
    {
      && chain.Valid() && Dated(chain, pending)
      && (forall k <- pending :: k !in committed)
      && |pending| <= size
    }

    /** Opens an existing store: expired items go, and the counter starts at what is left. */
    constructor (chain: Chain, state: State, pending: map<Key, Evidence>, committed: set<Key>)
      requires chain.Valid() && Dated(chain, pending) && forall k <- pending :: k !in committed
      ensures Valid() && size == |this.pending| && NoneExpired(state, this.pending) && this.chain == chain
      ensures this.state == state
      ensures this.committed == committed && buffer == []
      ensures Pruned(state, pending, this.pending)
      ensures Marks(state, this.pending, pruningHeight, pruningTime)
    {
      hide KeySuffix, IsExpired, NoneExpired, Marks, Pruned, Dated;
      this.chain, this.state, this.pending, this.committed := chain, state, pending, committed;
      buffer, size, pruningHeight, pruningTime := [], |pending|, 0, 0;
      new;
      assert Valid();
      hide Valid;
      pruningHeight, pruningTime := RemoveExpiredPendingEvidence();
      Recount();
    }

    method Recount()
      requires Valid()
      modifies this`size
      ensures Valid() && size == |pending|
    {
      size := |pending|;
    }

    predicate Verifies(ev: Evidence)
      reads this`state
    {
      && ev.height < HEIGHT_LIMIT && chain.hasBlock(ev.height) && ev.time == chain.blockTime(ev.height)
      && !IsExpired(state, ev.height, ev.time) && chain.genuine(ev)
    }

    lemma PendingIsNotCommitted()
      requires Valid()
      ensures forall k <- pending :: k !in committed
    {
    }

    method AddPending(ev: Evidence)
      requires Valid() && ev.height < HEIGHT_LIMIT && ev.time == chain.blockTime(ev.height)
      requires KeySuffix(ev) !in committed
      modifies this`pending, this`size
      ensures Valid() && pending == old(pending)[KeySuffix(ev) := ev] && size == old(size) + 1
    {
      hide KeySuffix;
      pending := pending[KeySuffix(ev) := ev];
      size := size + 1;
    }

    method RemovePending(k: Key)
      requires Valid() && k in pending
      modifies this`pending, this`size
      ensures Valid() && pending == old(pending) - {k} && size == old(size) - 1
    {
      hide KeySuffix;
      CardinalityWithout(pending, k);
      pending := pending - {k};
      size := size - 1;
    }

    method AddEvidence(ev: Evidence) returns (ok: bool)
      requires Valid()
      modifies this`pending, this`size
      ensures Valid()
      ensures ok <==>
              || KeySuffix(ev) in old(pending) || KeySuffix(ev) in committed
              || (&& ev.height < HEIGHT_LIMIT && chain.hasBlock(ev.height) && ev.time == chain.blockTime(ev.height)
                  && (state.height - ev.height <= state.maxAgeNumBlocks || state.time - ev.time <= state.maxAgeDuration)
                  && chain.genuine(ev))
      ensures pending == if KeySuffix(ev) in old(pending) || KeySuffix(ev) in committed || !ok then old(pending)
                         else old(pending)[KeySuffix(ev) := ev]
    {
      if KeySuffix(ev) in pending {
        return true;
      }
      if KeySuffix(ev) in committed {
        return true;
      }
      if !Verifies(ev) {
        return false;
      }
      AddPending(ev);
      return true;
    }

    /** Evidence of a block: all of it is new to the chain and distinct, and afterwards pending. */
    method CheckEvidence(evs: seq<Evidence>) returns (ok: bool)
      requires Valid() && forall ev <- evs :: ev.height < HEIGHT_LIMIT
      modifies this`pending, this`size
      ensures Valid() && old(pending).Keys <= pending.Keys
      ensures ok ==> forall ev <- evs :: KeySuffix(ev) in pending && KeySuffix(ev) !in committed
      ensures ok ==> forall i, j :: 0 <= i < j < |evs| ==> evs[i].hash != evs[j].hash
      ensures ((forall ev <- evs :: KeySuffix(ev) !in committed && Verifies(ev))
               && (forall i, j :: 0 <= i < j < |evs| ==> evs[i].hash != evs[j].hash)) ==> ok
    {
      hide KeySuffix, Valid;
      for i := 0 to |evs|
        invariant Valid() && old(pending).Keys <= pending.Keys
        invariant forall j :: 0 <= j < i ==> KeySuffix(evs[j]) in pending
        invariant forall j, k :: 0 <= j < k < i ==> evs[j].hash != evs[k].hash
      {
        var ev := evs[i];
        if ev.isLight || KeySuffix(ev) !in pending {
          if KeySuffix(ev) in committed || !Verifies(ev) {
            return false;
          }
          AddPending(ev);
        }
        for j := i downto 0
          invariant forall k :: j <= k < i ==> evs[k].hash != ev.hash
        {
          if evs[j].hash == ev.hash {
            return false;
          }
        }
      }
      PendingIsNotCommitted();
      return true;
    }

    method MarkEvidenceAsCommitted(evs: seq<Evidence>)
      requires Valid()
      modifies this`pending, this`size, this`committed
      ensures Valid() && committed == old(committed) + KeysOf(evs) && pending == old(pending) - KeysOf(evs)
    {
      hide KeySuffix, KeysOf, Valid;
      assert evs[..0] == [] && KeysOf([]) == {} by { NoKeys(); }
      for i := 0 to |evs|
        invariant Valid() && committed == old(committed) + KeysOf(evs[..i])
        invariant pending == old(pending) - KeysOf(evs[..i])
      {
        KeysOfNext(evs, i);
        MarkCommitted(KeySuffix(evs[i]));
      }
      assert evs[..|evs|] == evs;
    }

    method MarkCommitted(k: Key)
      requires Valid()
      modifies this`pending, this`size, this`committed
      ensures Valid() && committed == old(committed) + {k} && pending == old(pending) - {k}
    {
      hide KeySuffix, Dated;
      if k in pending {
        RemovePending(k);
      }
      committed := committed + {k};
    }

    /** Stops at the first item that is not expired, and yet leaves no expired one behind. */
    method RemoveExpiredPendingEvidence() returns (height: int, time: int)
      requires Valid()
      modifies this`pending, this`size
      ensures Valid() && NoneExpired(state, pending)
      ensures Pruned(state, old(pending), pending)
      ensures Marks(state, pending, height, time)
    {
      hide KeySuffix, IsExpired, IsFirst, Valid;
      while pending.Keys != {}
        invariant Valid()
        invariant forall k <- pending :: k in old(pending) && pending[k] == old(pending)[k]
        invariant forall k <- old(pending) ::
                    k in pending || IsExpired(state, old(pending)[k].height, old(pending)[k].time)
        decreases |pending.Keys|
      {
        FirstExists(pending.Keys);
        var k :| IsFirst(k, pending.Keys);
        FirstIsIn(k, pending.Keys);
        var ev := pending[k];
        if !IsExpired(state, ev.height, ev.time) {
          FirstPending(k);
          return ev.height + state.maxAgeNumBlocks + 1, ev.time + state.maxAgeDuration + SECOND;
        }
        RemovePending(k);
      }
      return state.height, state.time;
    }

    lemma FirstPending(k: Key)
      requires Valid() && IsFirst(k, pending.Keys) && k in pending
      requires !IsExpired(state, pending[k].height, pending[k].time)
      ensures NoneExpired(state, pending)
      ensures Marks(state, pending, pending[k].height + state.maxAgeNumBlocks + 1,
                    pending[k].time + state.maxAgeDuration + SECOND)
    {
      MarkOfFirst(chain, state, pending, k);
      FirstUnexpired(chain, state, pending, k);
    }

    /** Turns the votes consensus reported into evidence, unless it is known or from a height to come. */
    method ProcessConsensusBuffer(s: State)
      requires Valid() && 0 <= s.height < HEIGHT_LIMIT && s.time == chain.blockTime(s.height)
      modifies this`pending, this`size, this`buffer
      ensures Valid() && buffer == [] && Flushed(chain, s, old(pending), committed, old(buffer), pending)
    {
      hide KeySuffix, Valid;
      var votes := buffer;
      for i := 0 to |votes|
        invariant Valid() && old(pending).Keys <= pending.Keys
        invariant forall k <- old(pending) :: pending[k] == old(pending)[k]
        invariant forall j :: 0 <= j < i && Ripe(chain, s, votes[j]) ==>
                    KeySuffix(Proven(chain, votes[j])) in pending || KeySuffix(Proven(chain, votes[j])) in committed
        invariant forall k <- pending :: k in old(pending) || exists v <- votes ::
                    Ripe(chain, s, v) && pending[k] == Proven(chain, v)
      {
        var v := votes[i];
        if v.height > s.height || (v.height < s.height && !(v.loadable && chain.hasBlock(v.height))) {
          continue;
        }
        if !v.member {
          continue;
        }
        var dve := Evidence(v.height, if v.height == s.height then s.time else chain.blockTime(v.height),
                            v.hash, false);
        if KeySuffix(dve) in pending || KeySuffix(dve) in committed {
          continue;
        }
        AddPending(dve);
      }
      buffer := [];
    }

    lemma WhatStays(s: State, before: map<Key, Evidence>, votes: seq<Conflict>, evs: seq<Evidence>)
      requires Valid() && s.height < HEIGHT_LIMIT && Flushed(chain, s, before, committed, votes, pending)
      ensures NoneExpired(s, pending - KeysOf(evs)) <==> KeptAreFresh(chain, s, before, committed, votes, evs)
      ensures before.Keys <= pending.Keys && forall k <- before :: pending[k] == before[k]
    {
      FreshAfterFlush(chain, s, before, committed, votes, evs, pending);
    }

    lemma EmptyPool()
      requires Valid() && size <= 0
      ensures pending.Keys == {} && forall s :: NoneExpired(s, pending)
    {
      assert |pending.Keys| == |pending| == 0;
    }

    method ReportConflictingVotes(v: Conflict)
      requires Valid()
      modifies this`buffer
      ensures Valid() && buffer == old(buffer) + [v]
    {
      buffer := buffer + [v];
    }

    /** After a block: its evidence is committed and no longer pending; `panicked` if the height does not grow. */
    method Update(s: State, evs: seq<Evidence>) returns (panicked: bool)
      requires Valid() && 0 <= s.height < HEIGHT_LIMIT && s.time == chain.blockTime(s.height)
      modifies this
      ensures panicked <==> s.height <= old(state).height
      ensures panicked ==> unchanged(this)
      ensures Valid() && (!panicked ==> state == s && buffer == [])
      ensures !panicked ==> committed == old(committed) + KeysOf(evs) && pending.Keys !! KeysOf(evs)
      ensures !panicked ==>
                (NoneExpired(s, pending) <==>
                 || (s.height > old(pruningHeight) && s.time > old(pruningTime))
                 || KeptAreFresh(chain, s, old(pending), old(committed), old(buffer), evs))
      ensures !panicked ==> Kept(s, old(pending), evs, pending)
    {
      hide KeySuffix, KeysOf, Valid, NoneExpired, IsExpired, Flushed, KeptAreFresh, Marks, Pruned, Kept;
      if s.height <= state.height {
        return true;
      }
      ProcessConsensusBuffer(s);
      WhatStays(s, old(pending), old(buffer), evs);
      ghost var flushed := pending;
      state := s;
      MarkEvidenceAsCommitted(evs);
      if size <= 0 {
        EmptyPool();
      }
      if size > 0 && s.height > pruningHeight && s.time > pruningTime {
        pruningHeight, pruningTime := RemoveExpiredPendingEvidence();
      }
      KeptAfter(s, old(pending), flushed, evs, pending);
      return false;
    }

    /** What an operation may be asked for: states carry the time of their block, and heights fit the keys. */
    predicate Proper(op: Operation) {
      match op
      case Check(evs) => forall ev <- evs :: ev.height < HEIGHT_LIMIT
      case Advance(s, _) => 0 <= s.height < HEIGHT_LIMIT && s.time == chain.blockTime(s.height)
      case _ => true
    }

    method Step(op: Operation) returns (panicked: bool)
      requires Valid() && Proper(op)
      modifies this
      ensures Valid() && old(committed) <= committed
      ensures panicked <==> op.Advance? && op.state.height <= old(state).height
      ensures state == if op.Advance? && !panicked then op.state else old(state)
    {
      hide Valid, Flushed, Pruned, Kept, KeptAreFresh, NoneExpired;
      panicked := false;
      match op
      case Add(ev) => var _ := AddEvidence(ev);
      case Check(evs) => var _ := CheckEvidence(evs);
      case Report(v) => ReportConflictingVotes(v);
      case Advance(s, evs) => panicked := Update(s, evs);
    }

    /**
     * Over any run committed evidence stays committed and is never pending again; only a height that does not grow
     * panics.
     */
    method Run(ops: seq<Operation>) returns (panicked: bool)
      requires Valid() && forall op <- ops :: Proper(op)
      modifies this
      ensures Valid() && old(committed) <= committed && forall k <- old(committed) :: k !in pending
      ensures Growing(old(state).height, ops) ==> !panicked
    {
      hide Valid;
      assert ops[0..] == ops;
      for i := 0 to |ops|
        invariant Valid() && old(committed) <= committed
        invariant Growing(old(state).height, ops) ==> Growing(state.height, ops[i..])
      {
        assert ops[i..][1..] == ops[i + 1..];
        panicked := Step(ops[i]);
        if panicked {
          PendingIsNotCommitted();
          return;
        }
      }
      PendingIsNotCommitted();
      return false;
    }

    method ListEvidence(maxBytes: int) returns (evs: seq<Evidence>)
      requires Valid()
      ensures evs == Listing(chain, pending, pending.Keys, [], maxBytes)
      ensures Listed(chain, pending, maxBytes, evs) && OldestFirst(evs)
    {
      ListingMeans(chain, pending, maxBytes);
      hide Listed, OldestFirst, Dated;
      evs := [];
      var keys := pending.Keys;
      while keys != {}
        invariant keys <= pending.Keys
        invariant Listing(chain, pending, pending.Keys, [], maxBytes) == Listing(chain, pending, keys, evs, maxBytes)
        decreases |keys|
      {
        FirstExists(keys);
        var k :| IsFirst(k, keys);
        ListingStep(chain, pending, keys, evs, maxBytes, k);
        if maxBytes != -1 && chain.bytes(evs + [pending[k]]) > maxBytes {
          return;
        }
        evs := evs + [pending[k]];
        keys := keys - {k};
      }
    }

    /** The shortcut for an empty pool never hides evidence. */
    method PendingEvidence(maxBytes: int) returns (evs: seq<Evidence>)
      requires Valid()
      ensures evs == Listing(chain, pending, pending.Keys, [], maxBytes)
      ensures Listed(chain, pending, maxBytes, evs) && OldestFirst(evs)
    {
      ListingMeans(chain, pending, maxBytes);
      hide Listed, OldestFirst;
      if size == 0 {
        assert |pending.Keys| == 0;
        return [];
      }
      evs := ListEvidence(maxBytes);
    }
  }

  /**
   * An expired item that an update keeps: evidence of height 10 may be at most five blocks old, the mark is set to 16,
   * and at height 16, where it is too old, nothing is pruned because 16 does not exceed the mark.
   */
  method ExpiredItemKept() returns (p: Pool)
    ensures fresh(p) && p.Valid() && p.state.height == 16 && !NoneExpired(p.state, p.pending)
  {
    hide KeySuffix;
    var chain := Chain(h => h * SECOND, _ => true, _ => true, _ => 0);
    var ev := Evidence(10, 10 * SECOND, "A", false);
    var k := KeySuffix(ev);
    p := new Pool(chain, State(15, 15 * SECOND, 5, 5 * SECOND), map[k := ev], {});
    assert k in p.pending && p.pending[k] == ev;
    assert p.pruningHeight >= 16 by { assert NoneExpired(State(15, p.pruningTime, 5, 5 * SECOND), p.pending); }
    var next := State(16, 16 * SECOND, 5, 5 * SECOND);
    assert IsExpired(next, 10, 10 * SECOND);
    var _ := p.Update(next, []);
  }

  lemma NoKeys()
    ensures KeysOf([]) == {}
  {
  }

  lemma FirstIsIn(k: Key, keys: set<Key>)
    requires IsFirst(k, keys)
    ensures k in keys
  {
  }

  lemma CardinalityWithout(m: map<Key, Evidence>, k: Key)
    requires k in m
    ensures |m - {k}| == |m| - 1
  {
    assert m == (m - {k})[k := m[k]];
  }

  lemma ListingStep(c: Chain, pending: map<Key, Evidence>, keys: set<Key>, taken: seq<Evidence>, maxBytes: int, k: Key)
    requires keys <= pending.Keys && IsFirst(k, keys)
    ensures var more := taken + [pending[k]];
            Listing(c, pending, keys, taken, maxBytes) ==
            if maxBytes != -1 && c.bytes(more) > maxBytes then taken
            else Listing(c, pending, keys - {k}, more, maxBytes)
  {
    forall x | IsFirst(x, keys)
      ensures x == k
    {
      FirstIsUnique(k, x, keys);
    }
  }
}
