/**
 * What a node believes a peer has: bit arrays of votes, some of them shared (consensus/reactor.go,
 * libs/bits/bit_array.go).
 */
module PeerState {
  import opened Options

  datatype VoteKind = Prevote | Precommit | UnknownKind

  /** The votes a bit array is about. */
  datatype Slot = Slot(height: int, round: int, kind: VoteKind)

  /** The peer is said to have the vote of validator `index`. */
  datatype Claim = Claim(slot: Slot, index: nat)

  const WORD := 64

  function Words(bits: nat): nat {
    (bits + WORD - 1) / WORD
  }

  function Min(a: nat, b: nat): nat {
    if a <= b then a else b
  }

  /** A bit array stores whole words; `elems` lists their bits. */
  class BitArray {
    ghost const slot: Slot
    const bits: nat
    var elems: seq<bool>

    constructor (bits: nat, ghost slot: Slot)
      ensures this.bits == bits && this.slot == slot && elems == seq(Words(bits) * WORD, _ => false)
    {
      this.bits, this.slot := bits, slot;
      this.elems := seq(Words(bits) * WORD, _ => false);
    }

    ghost predicate Claimed(claims: set<Claim>)
      reads this
    {
      |elems| == Words(bits) * WORD && forall i :: 0 <= i < |elems| && elems[i] ==> Claim(slot, i) in claims
    }

    predicate GetIndex(i: nat)
      requires |elems| == Words(bits) * WORD
      reads this
    {
      i < bits && elems[i]
    }

    method SetIndex(i: nat, v: bool) returns (ok: bool)
      requires |elems| == Words(bits) * WORD
      modifies this
      ensures ok <==> i < bits
      ensures elems == if ok then old(elems)[i := v] else old(elems)
    {
      if i >= bits {
        return false;
      }
      elems := elems[i := v];
      return true;
    }

    /** Copies the words the two have in common. */
    method Update(o: seq<bool>)
      modifies this
      ensures var n := Min(old(|elems|), |o|); elems == o[..n] + old(elems)[n..]
    {
      var n := Min(|elems|, |o|);
      elems := o[..n] + elems[n..];
    }

    /** Takes over the peer's bits, and keeps what we knew of votes that are not ours. */
    method Merge(votes: seq<bool>, ours: Option<seq<bool>>)
      modifies this
      ensures elems == Merged(old(elems), votes, ours) && |elems| == old(|elems|)
      ensures forall i :: 0 <= i < |elems| && elems[i] ==> old(elems)[i] || (i < |votes| && votes[i])
    {
      if ours.None? {
        Update(votes);
      } else {
        var hasVotes := Or(Sub(elems, ours.value), votes);
        forall i: nat | i < |hasVotes| && hasVotes[i]
          ensures i < |elems| && (elems[i] || (i < |votes| && votes[i]))
        {
          MergedBits(elems, ours.value, votes, i);
        }
        Update(hasVotes);
      }
    }
  }

  /** The peer's bits, and what was known of votes that are not ours, in the words both have. */
  function Merged(a: seq<bool>, votes: seq<bool>, ours: Option<seq<bool>>): seq<bool> {
    var o := if ours.None? then votes else Or(Sub(a, ours.value), votes);
    var n := Min(|a|, |o|);
    o[..n] + a[n..]
  }

  /** Neither operation invents a bit. */
  lemma MergedBits(a: seq<bool>, ours: seq<bool>, votes: seq<bool>, i: nat)
    requires var m := Or(Sub(a, ours), votes); i < |m| && m[i]
    ensures i < |a| && (a[i] || (i < |votes| && votes[i]))
  {
  }

  /** What is known afterwards, vote by vote: what the peer says, and what was known of votes that are not ours. */
  lemma MergedExactly(a: seq<bool>, votes: seq<bool>, ours: Option<seq<bool>>, i: nat)
    requires i < |a|
    ensures |Merged(a, votes, ours)| == |a|
    ensures Merged(a, votes, ours)[i] ==
            if ours.None? then if i < |votes| then votes[i] else a[i]
            else (i < |votes| && votes[i]) || (a[i] && !(i < |ours.value| && ours.value[i]))
  {
  }

  /** Bits of `a` that are not in `b`; only words both have are cleared. */
  function Sub(a: seq<bool>, b: seq<bool>): seq<bool> {
    seq(|a|, i requires 0 <= i < |a| => a[i] && !(i < |b| && b[i]))
  }

  /** As long as the longer one, but only words both have are merged. */
  function Or(a: seq<bool>, b: seq<bool>): seq<bool> {
    seq(if |a| < |b| then |b| else |a|, i requires 0 <= i => i < |a| && (a[i] || (i < |b| && b[i])))
  }

  function CompareHRS(h1: int, r1: int, s1: int, h2: int, r2: int, s2: int): (r: int)
    ensures r < 0 <==> h1 < h2 || (h1 == h2 && (r1 < r2 || (r1 == r2 && s1 < s2)))
    ensures r == 0 <==> h1 == h2 && r1 == r2 && s1 == s2
  {
    if h1 < h2 then -1 else if h1 > h2 then 1
    else if r1 < r2 then -1 else if r1 > r2 then 1
    else if s1 < s2 then -1 else if s1 > s2 then 1 else 0
  }

  /** Claims that a bit array in a message makes. */
  ghost function ClaimsOf(slot: Slot, votes: seq<bool>): set<Claim> {
    set i: nat | i < |votes| && votes[i] :: Claim(slot, i)
  }

  class Peer {
    var height: int
    var round: int
    var step: int
    var proposal: bool
    var hasParts: bool                                // ProposalBlockParts is set
    var polRound: int
    var pol: BitArray?
    var prevotes: BitArray?
    var precommits: BitArray?
    var lastCommitRound: int
    var lastCommit: BitArray?
    var catchupRound: int
    var catchup: BitArray?
    ghost var claims: set<Claim>                      // every claim made so far

    constructor ()
      ensures Valid() && Arrays() == {} && claims == {}
    {
      height, round, step := 0, -1, 0;
      proposal, hasParts, polRound := false, false, -1;
      lastCommitRound, catchupRound := -1, -1;
      pol, prevotes, precommits, lastCommit, catchup := null, null, null, null, null;
      claims := {};
    }

    ghost function Arrays(): set<BitArray?>
      reads this`pol, this`prevotes, this`precommits, this`lastCommit, this`catchup
    {
      {pol, prevotes, precommits, lastCommit, catchup} - {null}
    }

    /** Every array is about the votes its field stands for, and holds claimed votes only. */
    ghost predicate Valid()
      reads this, Arrays()
    {
      && Holds(prevotes, Slot(height, round, Prevote))
      && Holds(precommits, Slot(height, round, Precommit))
      && Holds(catchup, Slot(height, catchupRound, Precommit))
      && Holds(pol, Slot(height, polRound, Prevote))
      && Holds(lastCommit, Slot(height - 1, lastCommitRound, Precommit))
    }

    ghost predicate Holds(a: BitArray?, slot: Slot)
      reads this, a
    {
      a != null ==> a.slot == slot && a.Claimed(claims)
    }

    /** Only ever an array for exactly the votes asked for. */
    function GetVoteBitArray(h: int, r: int, kind: VoteKind): (a: BitArray?)
      requires Valid()
      reads this, Arrays()
      ensures a != null ==> a in Arrays() && a.slot == Slot(h, r, kind) && a.Claimed(claims)
    {
      ArrayFor(h, r, kind)
    }

    function ArrayFor(h: int, r: int, kind: VoteKind): BitArray?
      reads this`height, this`round, this`catchupRound, this`polRound, this`lastCommitRound
      reads this`prevotes, this`precommits, this`catchup, this`pol, this`lastCommit
    {
      if kind == UnknownKind then null
      else if height == h then
        if round == r then if kind == Prevote then prevotes else if kind == Precommit then precommits else null
        else if catchupRound == r then if kind == Precommit then catchup else null
        else if polRound == r then if kind == Prevote then pol else null
        else null
      else if height == h + 1 then
        if lastCommitRound == r && kind == Precommit then lastCommit else null
      else null
    }

    /** The peer is credited with a vote. */
    ghost predicate Credited(c: Claim)
      requires Valid()
      reads this, Arrays()
    {
      var a := GetVoteBitArray(c.slot.height, c.slot.round, c.slot.kind);
      a != null && a.GetIndex(c.index)
    }

    lemma CreditedIsClaimed(c: Claim)
      requires Valid() && Credited(c)
      ensures c in claims
    {
    }

    ghost method Note(cs: set<Claim>)
      requires Valid()
      modifies this`claims
      ensures Valid() && claims == old(claims) + cs
    {
      claims := claims + cs;
    }

    // ----- allocation --------------------------------------------------------------------------

    method NewBits(n: int, ghost slot: Slot) returns (a: BitArray?)
      ensures a == null <==> n <= 0
      ensures a != null ==> fresh(a) && a.slot == slot && forall cs :: a.Claimed(cs)
    {
      if n <= 0 {
        return null;
      }
      a := new BitArray(n, slot);
    }

    /** An array that is there stays. */
    ghost predicate Kept(was: BitArray?, now: BitArray?) {
      was != null ==> now == was
    }

    method EnsureCatchupCommitRound(h: int, r: int, n: int)
      requires Valid()
      modifies this`catchupRound, this`catchup
      ensures Valid() && fresh(Arrays() - old(Arrays()))
      ensures height == h ==> catchupRound == r
      ensures height != h || old(catchupRound) == r ==> catchup == old(catchup)
      ensures height == h && old(catchupRound) != r && r == round ==> catchup == precommits
      ensures height == h && old(catchupRound) != r && r != round && n > 0 ==> catchup != null && fresh(catchup)
    {
      hide BitArray.Claimed;
      if height != h || catchupRound == r {
        return;
      }
      catchupRound := r;
      if r == round {
        catchup := precommits;
      } else {
        catchup := NewBits(n, Slot(height, r, Precommit));
      }
    }

    method EnsureVoteBitArrays(h: int, n: int)
      requires Valid()
      modifies this`prevotes, this`precommits, this`catchup, this`pol, this`lastCommit
      ensures Valid() && fresh(Arrays() - old(Arrays()))
      ensures Kept(old(prevotes), prevotes) && Kept(old(precommits), precommits) && Kept(old(catchup), catchup)
      ensures Kept(old(pol), pol) && Kept(old(lastCommit), lastCommit)
      ensures height == h && n > 0 ==> prevotes != null && precommits != null && catchup != null && pol != null
      ensures height == h + 1 && n > 0 ==> lastCommit != null
    {
      hide BitArray.Claimed;
      if height == h {
        EnsureRound(n);
        EnsureOthers(n);
      } else if height == h + 1 {
        if lastCommit == null {
          lastCommit := NewBits(n, Slot(height - 1, lastCommitRound, Precommit));
        }
      }
    }

    method EnsureRound(n: int)
      requires Valid()
      modifies this`prevotes, this`precommits
      ensures Valid() && fresh(Arrays() - old(Arrays()))
      ensures Kept(old(prevotes), prevotes) && Kept(old(precommits), precommits)
      ensures n > 0 ==> prevotes != null && precommits != null
    {
      hide BitArray.Claimed;
      if prevotes == null {
        prevotes := NewBits(n, Slot(height, round, Prevote));
      }
      if precommits == null {
        precommits := NewBits(n, Slot(height, round, Precommit));
      }
    }

    method EnsureOthers(n: int)
      requires Valid()
      modifies this`catchup, this`pol
      ensures Valid() && fresh(Arrays() - old(Arrays()))
      ensures Kept(old(catchup), catchup) && Kept(old(pol), pol)
      ensures n > 0 ==> catchup != null && pol != null
    {
      hide BitArray.Claimed;
      if catchup == null {
        catchup := NewBits(n, Slot(height, catchupRound, Precommit));
      }
      if pol == null {
        pol := NewBits(n, Slot(height, polRound, Prevote));
      }
    }

    // ----- messages ----------------------------------------------------------------------------

    /** There is an array for these votes, and the index is in its range. */
    ghost predicate Has(h: int, r: int, kind: VoteKind, index: nat)
      requires Valid()
      reads this, Arrays()
    {
      GetVoteBitArray(h, r, kind) != null && index < GetVoteBitArray(h, r, kind).bits
    }

    method SetHasVote(h: int, r: int, kind: VoteKind, index: nat)
      requires Valid()
      modifies this`claims, Arrays()
      ensures Valid() && Arrays() == old(Arrays()) && claims == old(claims) + {Claim(Slot(h, r, kind), index)}
      ensures Has(h, r, kind, index) ==> Credited(Claim(Slot(h, r, kind), index))
      ensures forall a <- Arrays() ::
                a.elems == if a == GetVoteBitArray(h, r, kind) && index < a.bits then old(a.elems)[index := true]
                           else old(a.elems)
    {
      hide ArrayFor, Valid, BitArray.Claimed;
      var psVotes := GetVoteBitArray(h, r, kind);
      Note({Claim(Slot(h, r, kind), index)});
      NoNullArray();
      if psVotes != null {
        SetBit(psVotes, index);
      }
      assert GetVoteBitArray(h, r, kind) == psVotes;
    }

    lemma NoNullArray()
      ensures null !in Arrays()
    {
    }

    /** A claimed bit of one of the arrays; the others keep theirs. */
    method SetBit(a: BitArray, index: nat)
      requires Valid() && a in Arrays() && Claim(a.slot, index) in claims
      modifies a
      ensures Valid() && a.elems == if index < a.bits then old(a.elems)[index := true] else old(a.elems)
      ensures |a.elems| == Words(a.bits) * WORD && (index < a.bits ==> a.GetIndex(index))
    {
      var _ := a.SetIndex(index, true);
    }

    method ApplyHasVote(h: int, r: int, kind: VoteKind, index: nat)
      requires Valid()
      modifies this`claims, Arrays()
      ensures Valid() && Arrays() == old(Arrays()) && claims == old(claims) + {Claim(Slot(h, r, kind), index)}
      ensures height == h && Has(h, r, kind, index) ==> Credited(Claim(Slot(h, r, kind), index))
      ensures height != h ==> forall a <- Arrays() :: a.elems == old(a.elems)
    {
      hide BitArray.Claimed;
      if height != h {
        Note({Claim(Slot(h, r, kind), index)});
        return;
      }
      SetHasVote(h, r, kind, index);
    }

    method ApplyNewRoundStep(h: int, r: int, s: int, lastRound: int)
      requires Valid()
      modifies this
      ensures Valid() && Arrays() <= old(Arrays()) && claims == old(claims)
      ensures (height, round, step) == if CompareHRS(h, r, s, old(height), old(round), old(step)) <= 0
                                       then (old(height), old(round), old(step)) else (h, r, s)
    {
      hide BitArray.Claimed;
      if CompareHRS(h, r, s, height, round, step) <= 0 {
        return;
      }
      if height != h {
        EnterHeight(h, r, lastRound);
      } else if round != r {
        EnterRound(r);
      }
      step := s;
    }

    /** A new round of the same height; a peer that reaches the catch-up round keeps what is known of that commit. */
    method EnterRound(r: int)
      requires Valid() && r != round
      modifies this
      ensures Valid() && Arrays() <= old(Arrays()) && claims == old(claims) && height == old(height) && round == r
      ensures lastCommit == old(lastCommit) && catchup == old(catchup) && prevotes == pol == null
      ensures precommits == if r == catchupRound then catchup else null
    {
      hide BitArray.Claimed;
      round := r;
      proposal, hasParts, polRound, pol, prevotes := false, false, -1, null, null;
      precommits := if r == catchupRound then catchup else null;
    }

    /** A new height; the precommits of its last commit round are kept. */
    method EnterHeight(h: int, r: int, lastRound: int)
      requires Valid() && h != height
      modifies this
      ensures Valid() && Arrays() <= old(Arrays()) && claims == old(claims) && height == h && round == r
      ensures lastCommit == if old(height) + 1 == h && old(round) == lastRound then old(precommits) else null
      ensures catchup == prevotes == precommits == pol == null
    {
      hide BitArray.Claimed;
      lastCommit := if height + 1 == h && round == lastRound then precommits else null;
      lastCommitRound, catchupRound, catchup := lastRound, -1, null;
      height, round := h, r;
      proposal, hasParts, polRound, pol, prevotes, precommits := false, false, -1, null, null, null;
    }

    method ApplyNewValidBlock(h: int, r: int, isCommit: bool, parts: bool)
      modifies this`hasParts
      ensures hasParts == if height == h && (round == r || isCommit) then parts else old(hasParts)
    {
      if height != h || (round != r && !isCommit) {
        return;
      }
      hasParts := parts;
    }

    method SetHasProposal(h: int, r: int, newPolRound: int, total: nat)
      requires Valid()
      modifies this`proposal, this`hasParts, this`polRound, this`pol
      ensures Valid() && Arrays() <= old(Arrays())
      ensures proposal == (old(proposal) || (height == h && round == r))
      ensures if height == h && round == r && !old(proposal) && !old(hasParts)
              then polRound == newPolRound && pol == null && hasParts == (total > 0)
              else polRound == old(polRound) && pol == old(pol) && hasParts == old(hasParts)
    {
      hide BitArray.Claimed;
      if height != h || round != r || proposal {
        return;
      }
      proposal := true;
      if hasParts {
        return;
      }
      hasParts := total > 0;
      polRound, pol := newPolRound, null;
    }

    method ApplyProposalPOL(h: int, newPolRound: int, n: nat, votes: seq<bool>)
      requires Valid() && |votes| == Words(n) * WORD
      modifies this`pol, this`claims
      ensures Valid() && fresh(Arrays() - old(Arrays()))
      ensures claims == old(claims) + ClaimsOf(Slot(h, newPolRound, Prevote), votes)
      ensures if height == h && polRound == newPolRound then pol != null && pol.elems == votes else pol == old(pol)
    {
      Note(ClaimsOf(Slot(h, newPolRound, Prevote), votes));
      if height != h || polRound != newPolRound {
        return;
      }
      var a := new BitArray(n, Slot(h, newPolRound, Prevote));
      a.elems := votes;
      assert forall i: nat :: i < |votes| && votes[i] ==>
        Claim(a.slot, i) in ClaimsOf(Slot(h, newPolRound, Prevote), votes);
      pol := a;
    }

    /** The peer's claim replaces what was known about votes that we have ourselves. */
    method ApplyVoteSetBits(h: int, r: int, kind: VoteKind, votes: seq<bool>, ours: Option<seq<bool>>)
      requires Valid()
      modifies this`claims, Arrays()
      ensures Valid() && Arrays() == old(Arrays()) && claims == old(claims) + ClaimsOf(Slot(h, r, kind), votes)
      ensures old(GetVoteBitArray(h, r, kind)) != null ==>
                old(GetVoteBitArray(h, r, kind)).elems == Merged(old(GetVoteBitArray(h, r, kind).elems), votes, ours)
    {
      var a := GetVoteBitArray(h, r, kind);
      ghost var added := ClaimsOf(Slot(h, r, kind), votes);
      Note(added);
      if a != null {
        assert forall i: nat :: i < |votes| && votes[i] ==> Claim(a.slot, i) in added;
        a.Merge(votes, ours);
        assert a.Claimed(claims);
      }
    }

    /** A vote received from the peer. */
    method AddVote(ourHeight: int, size: int, lastSize: int, h: int, r: int, kind: VoteKind, index: nat)
      requires Valid()
      modifies this, Arrays()
      ensures Valid() && fresh(Arrays() - old(Arrays())) && claims == old(claims) + {Claim(Slot(h, r, kind), index)}
      ensures Has(h, r, kind, index) ==> Credited(Claim(Slot(h, r, kind), index))
    {
      hide BitArray.Claimed;
      EnsureVoteBitArrays(ourHeight, size);
      EnsureVoteBitArrays(ourHeight - 1, lastSize);
      SetHasVote(h, r, kind, index);
    }

    /** A vote picked for the peer and sent. */
    method PickSendVote(h: int, r: int, kind: VoteKind, size: int, isCommit: bool, index: nat)
      requires Valid()
      modifies this, Arrays()
      ensures Valid() && fresh(Arrays() - old(Arrays())) && claims == old(claims) + {Claim(Slot(h, r, kind), index)}
      ensures Has(h, r, kind, index) ==> Credited(Claim(Slot(h, r, kind), index))
    {
      hide BitArray.Claimed;
      if isCommit {
        EnsureCatchupCommitRound(h, r, size);
      }
      EnsureVoteBitArrays(h, size);
      SetHasVote(h, r, kind, index);
    }

    // ----- runs --------------------------------------------------------------------------------

    /** Over any sequence of messages and sends, the peer is credited only with votes claimed for that very slot. */
    method HandleAll(events: seq<Event>)
      requires Valid()
      modifies this, Arrays()
      ensures Valid() && fresh(Arrays() - old(Arrays())) && claims == old(claims) + AllClaims(events)
      ensures forall c :: Credited(c) ==> c in old(claims) + AllClaims(events)
    {
      hide BitArray.Claimed;
      for i := 0 to |events|
        invariant Valid() && fresh(Arrays() - old(Arrays())) && claims == old(claims) + AllClaims(events[..i])
      {
        assert events[..i + 1][..i] == events[..i];
        Handle(events[i]);
      }
      assert events[..|events|] == events;
      forall c | Credited(c)
        ensures c in claims
      {
        CreditedIsClaimed(c);
      }
    }

    method Handle(ev: Event)
      requires Valid()
      modifies this, Arrays()
      ensures Valid() && fresh(Arrays() - old(Arrays())) && claims == old(claims) + Claims(ev)
    {
      hide BitArray.Claimed;
      match ev
      case NewRoundStep(h, r, s, last) => ApplyNewRoundStep(h, r, s, last);
      case NewValidBlock(h, r, isCommit, parts) => ApplyNewValidBlock(h, r, isCommit, parts);
      case HasProposal(h, r, pr, total) => SetHasProposal(h, r, pr, total);
      case ProposalPOL(h, pr, n, votes) =>
        if |votes| == Words(n) * WORD {
          ApplyProposalPOL(h, pr, n, votes);
        }
      case HasVote(h, r, kind, index) => ApplyHasVote(h, r, kind, index);
      case VoteSeen(ourHeight, n, lastN, r, kind, h, index) => AddVote(ourHeight, n, lastN, h, r, kind, index);
      case VoteSetBits(h, r, kind, votes, ours) => ApplyVoteSetBits(h, r, kind, votes, ours);
      case SendVote(h, r, kind, n, isCommit, index) => PickSendVote(h, r, kind, n, isCommit, index);
    }
  }

  /** Messages of the peer, and the votes exchanged with it. */
  datatype Event =
    | NewRoundStep(height: int, round: int, step: int, lastCommitRound: int)
    | NewValidBlock(height: int, round: int, isCommit: bool, parts: bool)
    | HasProposal(height: int, round: int, polRound: int, total: nat)
    | ProposalPOL(height: int, polRound: int, bits: nat, votes: seq<bool>)
    | HasVote(height: int, round: int, kind: VoteKind, index: nat)
    | VoteSeen(ourHeight: int, size: int, lastSize: int, round: int, kind: VoteKind, height: int, index: nat)
    | VoteSetBits(height: int, round: int, kind: VoteKind, votes: seq<bool>, ours: Option<seq<bool>>)
    | SendVote(height: int, round: int, kind: VoteKind, size: int, isCommit: bool, index: nat)

  ghost function Claims(ev: Event): set<Claim> {
    match ev
    case NewRoundStep(_, _, _, _) => {}
    case NewValidBlock(_, _, _, _) => {}
    case HasProposal(_, _, _, _) => {}
    case ProposalPOL(h, r, n, votes) => if |votes| == Words(n) * WORD then ClaimsOf(Slot(h, r, Prevote), votes) else {}
    case HasVote(h, r, kind, index) => {Claim(Slot(h, r, kind), index)}
    case VoteSeen(_, _, _, r, kind, h, index) => {Claim(Slot(h, r, kind), index)}
    case VoteSetBits(h, r, kind, votes, _) => ClaimsOf(Slot(h, r, kind), votes)
    case SendVote(h, r, kind, _, _, index) => {Claim(Slot(h, r, kind), index)}
  }

  ghost function AllClaims(events: seq<Event>): set<Claim> {
    if events == [] then {} else AllClaims(events[..|events| - 1]) + Claims(events[|events| - 1])
  }
}
