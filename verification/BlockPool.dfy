/**
 * The block pool under the interleaving of its routines, and the loop that takes blocks out of it (blocksync/pool.go,
 * blocksync/reactor.go). Every action is one section under the pool's lock, or one step of the routine that owns the
 * variables it changes.
 */
module BlockPool {
  import opened Options

  const MAX_PENDING_REQUESTS_PER_PEER := 20
  const MIN_BLOCKS_FOR_SINGLE_REQUEST := 50

  /** Peer identifiers; NO_PEER is the empty one. */
  type PeerId = nat
  const NO_PEER: PeerId := 0

  datatype Block = Block(height: int, id: nat)

  datatype Requester = Requester(
    height: int, peer: PeerId, second: PeerId, gotFrom: PeerId, block: Option<Block>, poolHeight: int)
  {
    predicate DidRequestFrom(p: PeerId) {
      peer == p || second == p
    }

    /** The block is kept if it came from a peer we asked and none is there yet; `None` refuses it. */
    function SetBlock(b: Block, p: PeerId): Option<Requester> {
      if !DidRequestFrom(p) then None
      else if block.Some? then Some(this)
      else Some(this.(block := Some(b), gotFrom := p))
    }

    /** Forgets the peer, and the block if it came from that peer. */
    function Reset(p: PeerId): Requester {
      var r := if gotFrom == p then this.(block := None, gotFrom := NO_PEER) else this;
      if peer == p then r.(peer := NO_PEER) else r.(second := NO_PEER)
    }
  }

  /** A peer that is forgotten takes its block along; otherwise the block and its sender stay. */
  lemma ResetExactly(r: Requester, p: PeerId)
    ensures var r' := r.Reset(p);
            && (if r.gotFrom == p then r'.block.None? && r'.gotFrom == NO_PEER
                else r'.block == r.block && r'.gotFrom == r.gotFrom)
            && r'.peer == (if r.peer == p then NO_PEER else r.peer)
            && r'.second == (if r.peer == p then r.second else NO_PEER)
            && r'.height == r.height && r'.poolHeight == r.poolHeight
  {
  }

  datatype PeerRange = PeerRange(base: int, height: int)

  /** Where the pool routine stands between two iterations of its loop. */
  datatype Phase = Waiting | Peeked(first: Block, second: Block) | Refused(first: Block, second: Block)
    | Popped(block: Block)

  /** State and store must agree, or the reactor panics; the first block wanted is the initial one or the next. */
  function StartHeight(stateHeight: int, storeHeight: int, offlineHeight: int, initial: int): (r: Option<int>)
    requires 0 <= stateHeight && 0 <= storeHeight && 0 <= offlineHeight && 1 <= initial
    ensures r.Some? ==> r.value == (if stateHeight == 0 then initial else stateHeight + 1)
    ensures r.None? <==> stateHeight != (if storeHeight == 0 then offlineHeight else storeHeight)
  {
    var height := if storeHeight == 0 then offlineHeight else storeHeight;
    if stateHeight != height then None
    else if height + 1 == 1 then Some(initial)
    else Some(height + 1)
  }

  /** Requesters for exactly the heights lo, lo + 1, ..., each for its own height and with a block of that height. */
  ghost predicate Contiguous(rs: map<int, Requester>, lo: int) {
    forall h :: h in rs <==> lo <= h < lo + |rs|
  }

  ghost predicate OwnHeights(rs: map<int, Requester>) {
    forall h <- rs :: rs[h].height == h && (rs[h].block.Some? ==> rs[h].block.value.height == h)
  }

  lemma RemoveFirst(rs: map<int, Requester>, lo: int)
    requires Contiguous(rs, lo) && |rs| > 0
    ensures lo in rs && |rs - {lo}| == |rs| - 1 && Contiguous(rs - {lo}, lo + 1)
  {
    var rest := rs - {lo};
    assert rs == rest[lo := rs[lo]];
  }

  lemma AddLast(rs: map<int, Requester>, lo: int, r: Requester)
    requires Contiguous(rs, lo)
    ensures var k := lo + |rs|; |rs[k := r]| == |rs| + 1 && Contiguous(rs[k := r], lo)
  {
    assert lo + |rs| !in rs;
  }

  lemma ChangeOne(rs: map<int, Requester>, lo: int, h: int, r: Requester)
    requires Contiguous(rs, lo) && h in rs
    ensures |rs[h := r]| == |rs| && Contiguous(rs[h := r], lo)
  {
  }

  /** The requesters below `to` have been told the height of the pool, and nothing else about them has changed. */
  ghost predicate Told(before: map<int, Requester>, after: map<int, Requester>, height: int, to: int) {
    && after.Keys == before.Keys
    && forall h <- after :: after[h] == if h < to then before[h].(poolHeight := height) else before[h]
  }

  lemma NoneTold(rs: map<int, Requester>, lo: int)
    requires Contiguous(rs, lo)
    ensures Told(rs, rs, lo, lo)
  {
  }

  lemma ToldOneMore(before: map<int, Requester>, after: map<int, Requester>, height: int, h: int)
    requires Told(before, after, height, h) && h in after
    ensures Told(before, after[h := after[h].(poolHeight := height)], height, h + 1)
  {
  }

  /** Beyond the last requester there is nobody left to tell. */
  lemma ToldAll(before: map<int, Requester>, after: map<int, Requester>, height: int, to: int)
    requires Contiguous(after, height) && Told(before, after, height, to)
    requires to <= height + MIN_BLOCKS_FOR_SINGLE_REQUEST
    requires to == height + MIN_BLOCKS_FOR_SINGLE_REQUEST || to == height + |after|
    ensures Told(before, after, height, height + MIN_BLOCKS_FOR_SINGLE_REQUEST)
  {
  }

  class Pool {
    const startHeight: int
    var height: int                                   // lowest height with a requester
    var requesters: map<int, Requester>
    var peers: map<PeerId, PeerRange>
    var maxPeerHeight: int
    var nextHeight: Option<int>                       // local to makeRequestersRoutine
    var phase: Phase                                  // local to poolRoutine
    var lastBlockHeight: int                          // state.LastBlockHeight of poolRoutine
    var applied: seq<Block>                           // blocks applied so far

    ghost predicate Valid()
      reads this
    {
      && Contiguous(requesters, height) && OwnHeights(requesters)
      && (nextHeight.Some? ==> nextHeight.value == height + |requesters|)
      && PhaseOk()
      && startHeight <= height
      && (forall i :: 0 <= i < |applied| ==> applied[i].height == startHeight + i)
      && (forall p <- peers :: peers[p].height <= maxPeerHeight)
    }

    /** What the pool routine holds is what the pool holds, and the blocks before the pool's height are applied. */
    ghost predicate PhaseOk()
      reads this
    {
      match phase
      case Waiting => |applied| == height - startHeight && StateOk(height)
      case Peeked(first, second) =>
        && |applied| == height - startHeight && StateOk(height)
        && first.height == height && second.height == height + 1 && 2 <= |requesters|
      case Refused(first, second) =>
        && |applied| == height - startHeight && StateOk(height)
        && first.height == height && second.height == height + 1 && 2 <= |requesters|
      case Popped(block) => |applied| == height - 1 - startHeight && StateOk(height - 1) && block.height == height - 1
    }

    /** The state is at the block before `h`; nothing was applied yet at the initial height. */
    ghost predicate StateOk(h: int)
      reads this
    {
      lastBlockHeight + 1 == h || (lastBlockHeight == 0 && h == startHeight)
    }

    constructor (start: int, stateHeight: int)
      requires start == stateHeight + 1 || stateHeight == 0
      ensures Valid() && height == startHeight == start && applied == [] && lastBlockHeight == stateHeight
    {
      startHeight, height, lastBlockHeight := start, start, stateHeight;
      requesters, peers, maxPeerHeight := map[], map[], 0;
      nextHeight, phase, applied := None, Waiting, [];
    }

    // ----- makeRequestersRoutine ---------------------------------------------------------------

    /** Reads the next height to request, and releases the lock. */
    method ReadNextHeight()
      requires Valid()
      modifies this`nextHeight
      ensures Valid()
      ensures nextHeight == if |requesters| < |peers| * MAX_PENDING_REQUESTS_PER_PEER
                               && height + |requesters| <= maxPeerHeight
                            then Some(height + |requesters|) else None
    {
      var next := height + |requesters|;
      if |requesters| >= |peers| * MAX_PENDING_REQUESTS_PER_PEER || next > maxPeerHeight {
        nextHeight := None;
      } else {
        nextHeight := Some(next);
      }
    }

    /** Whatever happened since the height was read, it still is the first one without a requester. */
    method MakeNextRequester()
      requires Valid()
      modifies this`requesters, this`nextHeight
      ensures Valid() && nextHeight.None?
      ensures old(nextHeight).Some? ==>
                && old(nextHeight).value !in old(requesters) && |requesters| == old(|requesters|) + 1
                && requesters == old(requesters)[old(nextHeight).value :=
                                                 Requester(old(nextHeight).value, NO_PEER, NO_PEER, NO_PEER, None, 0)]
      ensures old(nextHeight).None? ==> requesters == old(requesters)
    {
      if nextHeight.Some? {
        var request := Requester(nextHeight.value, NO_PEER, NO_PEER, NO_PEER, None, 0);
        AddLast(requesters, height, request);
        requesters := requesters[nextHeight.value := request];
        nextHeight := None;
      }
    }

    // ----- requesters --------------------------------------------------------------------------

    method Replace(h: int, r: Requester)
      requires Valid() && h in requesters && r.height == h && (r.block.Some? ==> r.block.value.height == h)
      modifies this`requesters
      ensures Valid() && requesters == old(requesters)[h := r] && |requesters| == |old(requesters)|
    {
      ChangeOne(requesters, height, h, r);
      requesters := requesters[h := r];
    }

    method PickPeer(h: int, p: PeerId, asSecond: bool)
      requires Valid()
      modifies this`requesters
      ensures Valid()
      ensures requesters == if h !in old(requesters) then old(requesters)
                            else if asSecond then old(requesters)[h := old(requesters)[h].(second := p)]
                            else old(requesters)[h := old(requesters)[h].(peer := p)]
    {
      if h in requesters {
        var r := requesters[h];
        Replace(h, if asSecond then r.(second := p) else r.(peer := p));
      }
    }

    method ResetRequester(h: int, p: PeerId)
      requires Valid()
      modifies this`requesters
      ensures Valid()
      ensures requesters == if h in old(requesters) then old(requesters)[h := old(requesters)[h].Reset(p)]
                            else old(requesters)
    {
      if h in requesters {
        Replace(h, requesters[h].Reset(p));
      }
    }

    // ----- messages ----------------------------------------------------------------------------

    /** A block is stored only under its own height, and only from a peer it was requested from. */
    method AddBlock(p: PeerId, block: Block, extCommitHeight: Option<int>) returns (ok: bool)
      requires Valid()
      modifies this`requesters
      ensures Valid() && requesters.Keys == old(requesters).Keys
      ensures ok <==> (extCommitHeight.Some? ==> extCommitHeight.value == block.height)
                      && block.height in old(requesters) && old(requesters)[block.height].DidRequestFrom(p)
      ensures forall h <- requesters :: requesters[h] != old(requesters)[h] ==> ok && h == block.height
      ensures ok ==>
                var r := old(requesters)[block.height];
                requesters[block.height] == if r.block.None? then r.(block := Some(block), gotFrom := p) else r
    {
      if extCommitHeight.Some? && extCommitHeight.value != block.height {
        return false;
      }
      if block.height !in requesters {
        return false;
      }
      var r := requesters[block.height].SetBlock(block, p);
      if r.None? {
        return false;
      }
      Replace(block.height, r.value);
      return true;
    }

    method SetPeerRange(p: PeerId, base: int, h: int, banned: bool)
      requires Valid()
      modifies this`peers, this`maxPeerHeight
      ensures Valid()
      ensures peers == if p !in old(peers) && banned then old(peers) else old(peers)[p := PeerRange(base, h)]
      ensures maxPeerHeight == if h <= old(maxPeerHeight) || (p !in old(peers) && banned) then old(maxPeerHeight) else h
    {
      if p !in peers && banned {
        return;
      }
      peers := peers[p := PeerRange(base, h)];
      if h > maxPeerHeight {
        maxPeerHeight := h;
      }
    }

    method RemovePeer(p: PeerId)
      requires Valid()
      modifies this`peers, this`maxPeerHeight
      ensures Valid() && peers == old(peers) - {p}
      ensures maxPeerHeight == old(maxPeerHeight) || maxPeerHeight == 0
              || exists q <- peers :: peers[q].height == maxPeerHeight
      ensures p !in old(peers) || old(peers)[p].height != old(maxPeerHeight) ==> maxPeerHeight == old(maxPeerHeight)
    {
      if p in peers {
        var gone := peers[p];
        peers := peers - {p};
        if gone.height == maxPeerHeight {
          UpdateMaxPeerHeight();
        }
      }
    }

    method UpdateMaxPeerHeight()
      modifies this`maxPeerHeight
      ensures 0 <= maxPeerHeight && (forall p <- peers :: peers[p].height <= maxPeerHeight)
      ensures maxPeerHeight == 0 || exists p <- peers :: peers[p].height == maxPeerHeight
    {
      var left, max := peers.Keys, 0;
      while left != {}
        invariant left <= peers.Keys && 0 <= max
        invariant forall p <- peers :: p !in left ==> peers[p].height <= max
        invariant max == 0 || exists p <- peers :: peers[p].height == max
      {
        var p :| p in left;
        if peers[p].height > max {
          max := peers[p].height;
        }
        left := left - {p};
      }
      maxPeerHeight := max;
    }

    // ----- poolRoutine -------------------------------------------------------------------------

    /** The blocks at the pool's height and the next one have arrived. */
    predicate Ready()
      reads this`height, this`requesters
    {
      height in requesters && height + 1 in requesters
      && requesters[height].block.Some? && requesters[height + 1].block.Some?
    }

    /** Looks at the first two blocks; `panicked` if their heights are not what they must be. */
    method PeekTwoBlocks() returns (panicked: bool)
      requires Valid()
      modifies this`phase
      ensures Valid() && !panicked
      ensures phase == if old(phase) == Waiting && Ready()
                       then Peeked(requesters[height].block.value, requesters[height + 1].block.value)
                       else old(phase)
    {
      if phase != Waiting || height !in requesters || height + 1 !in requesters {
        return false;
      }
      var first, second := requesters[height].block, requesters[height + 1].block;
      if first.None? || second.None? {
        return false;
      }
      if lastBlockHeight > 0 && lastBlockHeight + 1 != first.value.height {
        return true;
      }
      if first.value.height + 1 != second.value.height {
        return true;
      }
      phase := Peeked(first.value, second.value);
      return false;
    }

    /** Verification failed: the sender of the first block goes; `panicked` if its requester is gone. */
    method RejectFirst() returns (panicked: bool)
      requires Valid()
      modifies this`phase, this`peers, this`maxPeerHeight
      ensures Valid() && !panicked
      ensures old(phase).Peeked? ==>
                && phase == Refused(old(phase).first, old(phase).second) && old(phase).first.height in requesters
                && peers == old(peers) - {requesters[old(phase).first.height].gotFrom}
      ensures !old(phase).Peeked? ==> unchanged(this)
    {
      if !phase.Peeked? {
        return false;
      }
      if phase.first.height !in requesters {
        return true;
      }
      var p := requesters[phase.first.height].gotFrom;
      phase := Refused(phase.first, phase.second);
      RemovePeer(p);
      return false;
    }

    /** Then the sender of the second block, whatever has happened in between. */
    method RejectSecond() returns (panicked: bool)
      requires Valid()
      modifies this`phase, this`peers, this`maxPeerHeight
      ensures Valid() && !panicked
      ensures old(phase).Refused? ==>
                && phase == Waiting && old(phase).second.height in requesters
                && peers == old(peers) - {requesters[old(phase).second.height].gotFrom}
      ensures !old(phase).Refused? ==> unchanged(this)
    {
      if !phase.Refused? {
        return false;
      }
      if phase.second.height !in requesters {
        return true;
      }
      var p := requesters[phase.second.height].gotFrom;
      phase := Waiting;
      RemovePeer(p);
      return false;
    }

    /** Verification succeeded: pops the first requester and tells the next ones; `panicked` if one is missing. */
    method PopRequest() returns (panicked: bool)
      requires Valid()
      modifies this`requesters, this`height, this`phase
      ensures Valid() && !panicked
      ensures old(phase).Peeked? ==> phase == Popped(old(phase).first) && height == old(height) + 1
      ensures old(phase).Peeked? ==>
                Told(old(requesters) - {old(height)}, requesters, height, height + MIN_BLOCKS_FOR_SINGLE_REQUEST)
      ensures !old(phase).Peeked? ==> unchanged(this)
    {
      if !phase.Peeked? {
        return false;
      }
      if height !in requesters {
        return true;
      }
      RemoveFirst(requesters, height);
      phase := Popped(phase.first);
      requesters := requesters - {height};
      height := height + 1;
      panicked := TellNext();
    }

    /** Tells the next requesters the height of the pool; `panicked` if one is missing. */
    method TellNext() returns (panicked: bool)
      requires Valid()
      modifies this`requesters
      ensures Valid() && !panicked && Told(old(requesters), requesters, height, height + MIN_BLOCKS_FOR_SINGLE_REQUEST)
    {
      NoneTold(requesters, height);
      hide Valid, Told, Contiguous, OwnHeights;
      var n := if |requesters| < MIN_BLOCKS_FOR_SINGLE_REQUEST then |requesters| else MIN_BLOCKS_FOR_SINGLE_REQUEST;
      for i := 0 to n
        invariant Valid() && |requesters| == |old(requesters)| && Told(old(requesters), requesters, height, height + i)
      {
        panicked := TellOne(height + i, old(requesters));
        if panicked {
          return;
        }
      }
      AreContiguous();
      ToldAll(old(requesters), requesters, height, height + n);
      return false;
    }

    method TellOne(h: int, ghost before: map<int, Requester>) returns (panicked: bool)
      requires Valid() && height <= h < height + |requesters| && Told(before, requesters, height, h)
      modifies this`requesters
      ensures Valid() && !panicked && |requesters| == |old(requesters)| && Told(before, requesters, height, h + 1)
    {
      hide Valid, Told;
      RequesterOk(h);
      if h !in requesters {
        return true;
      }
      ToldOneMore(before, requesters, height, h);
      Replace(h, requesters[h].(poolHeight := height));
      return false;
    }

    lemma AreContiguous()
      requires Valid()
      ensures Contiguous(requesters, height)
    {
    }

    lemma RequesterOk(h: int)
      requires Valid() && height <= h < height + |requesters|
      ensures h in requesters && requesters[h].height == h
      ensures requesters[h].block.Some? ==> requesters[h].block.value.height == h
    {
    }

    /** The popped block is saved and applied. */
    method ApplyBlock()
      requires Valid()
      modifies this`phase, this`lastBlockHeight, this`applied
      ensures Valid()
      ensures old(phase).Popped? ==> phase == Waiting && applied == old(applied) + [old(phase).block]
    {
      if phase.Popped? {
        lastBlockHeight := phase.block.height;
        applied := applied + [phase.block];
        phase := Waiting;
      }
    }

    // ----- any interleaving --------------------------------------------------------------------

    method Step(a: Action) returns (panicked: bool)
      requires Valid()
      modifies this
      ensures Valid() && !panicked
    {
      panicked := false;
      match a
      case ReadNext => ReadNextHeight();
      case MakeNext => MakeNextRequester();
      case Pick(h, p, asSecond) => PickPeer(h, p, asSecond);
      case Reset(h, p) => ResetRequester(h, p);
      case Deliver(p, block, ext) => var _ := AddBlock(p, block, ext);
      case Status(p, base, h, banned) => SetPeerRange(p, base, h, banned);
      case Leave(p) => RemovePeer(p);
      case Peek => panicked := PeekTwoBlocks();
      case RefuseFirst => panicked := RejectFirst();
      case RefuseSecond => panicked := RejectSecond();
      case Pop => panicked := PopRequest();
      case Apply => ApplyBlock();
    }

    /** However the routines interleave, nothing panics and blocks are applied in order of height without gaps. */
    method Run(actions: seq<Action>) returns (panicked: bool)
      requires Valid()
      modifies this
      ensures Valid() && !panicked
      ensures forall h :: h in requesters <==> height <= h < height + |requesters|
      ensures forall i :: 0 <= i < |applied| ==> applied[i].height == startHeight + i
    {
      for i := 0 to |actions|
        invariant Valid()
      {
        var p := Step(actions[i]);
        if p {
          return true;
        }
      }
      return false;
    }
  }

  datatype Action =
    | ReadNext | MakeNext | Pick(height: int, peer: PeerId, asSecond: bool) | Reset(height: int, peer: PeerId)
    | Deliver(peer: PeerId, block: Block, extCommitHeight: Option<int>)
    | Status(peer: PeerId, base: int, height: int, banned: bool)
    | Leave(peer: PeerId) | Peek | RefuseFirst | RefuseSecond | Pop | Apply
}
