/** Votes and the tallies that consensus reads (types/vote_set.go, consensus/types/height_vote_set.go). */
module VoteSets {
  import opened Options
  import opened VotingPower

  /** A block and its BlockID stand for each other. */
  type BlockId = nat
  type Peer = nat

  datatype VoteType = Prevote | Precommit

  /** `block` is None for a nil vote. */
  datatype Vote = Vote(validator: Validator, height: nat, round: int, kind: VoteType, block: Option<BlockId>)

  /** The votes seen for one block. */
  datatype BlockVotes = BlockVotes(peerMaj23: bool, voters: set<Validator>, sum: nat)

  datatype AddResult<T> = AddResult(votes: T, added: bool)

  datatype VoteSet = VoteSet(
    height: nat, round: int, kind: VoteType, vals: ValidatorSet,
    votes: map<Validator, Option<BlockId>>,           // primary vote of each validator
    sum: nat,                                         // power of the validators seen
    maj23: Option<Option<BlockId>>,                   // first +2/3 majority seen
    byBlock: map<Option<BlockId>, BlockVotes>,
    peerMaj23s: map<Peer, Option<BlockId>>)
  {
    predicate HasTwoThirdsAny() {
      sum > vals.total * 2 / 3
    }

    predicate HasAll() {
      sum == vals.total
    }

    predicate HasVote(v: Validator, b: Option<BlockId>) {
      (v in votes && votes[v] == b) || (b in byBlock && v in byBlock[b].voters)
    }

    function AddVote(vote: Vote): (r: AddResult<VoteSet>) {
      if vote.height != height || vote.round != round || vote.kind != kind then AddResult(this, false)
      else if vote.validator !in vals.powers then AddResult(this, false)
      else if HasVote(vote.validator, vote.block) then AddResult(this, false)
      else AddVerifiedVote(vote.validator, vote.block)
    }

    function AddVerifiedVote(v: Validator, b: Option<BlockId>): (r: AddResult<VoteSet>) {
      var primary := RecordPrimary(v, b);
      if v in votes && (b !in byBlock || !byBlock[b].peerMaj23) then AddResult(primary, false)
      else AddResult(primary.Tally(v, b), true)
    }

    /** The first vote of a validator is its primary one; a conflicting vote replaces it only for the majority block. */
    function RecordPrimary(v: Validator, b: Option<BlockId>): VoteSet {
      if v !in votes then this.(votes := votes[v := b], sum := sum + Weight(vals.powers, v))
      else if maj23 == Some(b) then this.(votes := votes[v := b])
      else this
    }

    /** Counts the vote for its block; the first block to cross the quorum becomes the majority. */
    function Tally(v: Validator, b: Option<BlockId>): VoteSet {
      var was := Seen(b);
      var now := was.(voters := was.voters + {v}, sum := was.sum + Weight(vals.powers, v));
      var tallied := this.(byBlock := byBlock[b := now]);
      if was.sum < vals.Quorum() <= now.sum && maj23.None? then
        tallied.(maj23 := Some(b), votes := votes + map w | w in now.voters :: b)
      else tallied
    }

    function Seen(b: Option<BlockId>): BlockVotes {
      if b in byBlock then byBlock[b] else BlockVotes(false, {}, 0)
    }

    function SetPeerMaj23(peer: Peer, b: Option<BlockId>): VoteSet {
      if peer in peerMaj23s then this
      else
        this.(peerMaj23s := peerMaj23s[peer := b], byBlock := byBlock[b := Seen(b).(peerMaj23 := true)])
    }

    /** What every vote set maintains about its tallies. */
    ghost predicate Valid() {
      && vals.Valid()
      && votes.Keys <= vals.powers.Keys
      && sum == Power(vals.powers, votes.Keys)
      && TalliesExact() && MajorityExact()
    }

    ghost predicate TalliesExact() {
      forall b <- byBlock :: byBlock[b].voters <= votes.Keys && byBlock[b].sum == Power(vals.powers, byBlock[b].voters)
    }

    ghost predicate MajorityExact() {
      && (maj23.Some? ==> maj23.value in byBlock && byBlock[maj23.value].sum >= vals.Quorum())
      && (forall b <- byBlock :: byBlock[b].sum >= vals.Quorum() ==> maj23.Some?)
    }

    /** Every vote the set has kept appears in `known`. */
    ghost predicate KeptIn(known: seq<Vote>) {
      && (forall v <- votes :: Vote(v, height, round, kind, votes[v]) in known)
      && (forall b <- byBlock :: forall v <- byBlock[b].voters :: Vote(v, height, round, kind, b) in known)
    }
  }

  function NewVoteSet(height: nat, round: int, kind: VoteType, vals: ValidatorSet): VoteSet {
    VoteSet(height, round, kind, vals, map[], 0, None, map[], map[])
  }

  /** Same vote set slot, with every recorded majority kept. */
  ghost predicate Grown(vs: VoteSet, vs': VoteSet) {
    && vs'.height == vs.height && vs'.round == vs.round && vs'.kind == vs.kind && vs'.vals == vs.vals
    && (vs.maj23.Some? ==> vs'.maj23 == vs.maj23)
    && vs.sum <= vs'.sum
  }

  lemma RecordPrimaryKeeps(vs: VoteSet, v: Validator, b: Option<BlockId>, known: seq<Vote>)
    requires vs.Valid() && vs.KeptIn(known) && v in vs.vals.powers
    requires Vote(v, vs.height, vs.round, vs.kind, b) in known
    ensures var r := vs.RecordPrimary(v, b);
            r.Valid() && r.KeptIn(known) && Grown(vs, r) && v in r.votes && r.byBlock == vs.byBlock
  {
    hide Power;
    if v !in vs.votes {
      PowerAdd(vs.vals.powers, vs.votes.Keys, v);
      assert (vs.votes[v := b]).Keys == vs.votes.Keys + {v};
    } else {
      assert (vs.votes[v := b]).Keys == vs.votes.Keys;
    }
  }

  lemma TallyExact(vs: VoteSet, v: Validator, b: Option<BlockId>)
    requires vs.vals.Valid() && vs.TalliesExact() && v in vs.votes && v !in vs.Seen(b).voters
    ensures vs.Tally(v, b).TalliesExact() && vs.Tally(v, b).votes.Keys == vs.votes.Keys
  {
    PowerAdd(vs.vals.powers, vs.Seen(b).voters, v);
    assert Power(vs.vals.powers, {}) == 0;
    hide Power;
  }

  lemma TallyValid(vs: VoteSet, v: Validator, b: Option<BlockId>)
    requires vs.Valid() && v in vs.votes && v !in vs.Seen(b).voters
    ensures vs.Tally(v, b).Valid() && Grown(vs, vs.Tally(v, b))
  {
    hide Power, VoteSet.TalliesExact;
    TallyExact(vs, v, b);
  }

  lemma TallyKept(vs: VoteSet, v: Validator, b: Option<BlockId>, known: seq<Vote>)
    requires vs.KeptIn(known) && Vote(v, vs.height, vs.round, vs.kind, b) in known
    ensures vs.Tally(v, b).KeptIn(known)
  {
  }

  /** Adding a vote keeps the tallies exact, never loses a majority, and keeps only votes it was given. */
  lemma AddVoteKeeps(vs: VoteSet, vote: Vote, known: seq<Vote>)
    requires vs.Valid() && vs.KeptIn(known) && vote in known
    ensures var r := vs.AddVote(vote); r.votes.Valid() && r.votes.KeptIn(known) && Grown(vs, r.votes)
  {
    hide VoteSet.Valid, VoteSet.KeptIn, VoteSet.Tally;
    var v, b := vote.validator, vote.block;
    var r := vs.AddVote(vote);
    if r.votes != vs || r.added {
      RecordPrimaryKeeps(vs, v, b, known);
      if r.added {
        TallyValid(vs.RecordPrimary(v, b), v, b);
        TallyKept(vs.RecordPrimary(v, b), v, b, known);
      }
    }
  }

  /** The first vote of a member for this slot is added and counted, for its block and in total. */
  lemma FirstVoteCounts(vs: VoteSet, vote: Vote)
    requires vs.Valid() && vote.height == vs.height && vote.round == vs.round && vote.kind == vs.kind
    requires vote.validator in vs.vals.powers && vote.validator !in vs.votes
    ensures var r := vs.AddVote(vote); var w := Weight(vs.vals.powers, vote.validator);
            && r.added && r.votes.sum == vs.sum + w && r.votes.Seen(vote.block).sum == vs.Seen(vote.block).sum + w
            && vote.validator in r.votes.Seen(vote.block).voters && vote.validator in r.votes.votes
  {
    hide Power, VoteSet.MajorityExact;
  }

  /** Added: for this slot, by a member, and its first vote or a new one for a block that a peer claims. */
  lemma AddedExactly(vs: VoteSet, vote: Vote)
    requires vs.Valid()
    ensures vs.AddVote(vote).added <==>
            && vote.height == vs.height && vote.round == vs.round && vote.kind == vs.kind
            && vote.validator in vs.vals.powers
            && (vote.validator !in vs.votes
                || (vs.votes[vote.validator] != vote.block && vs.Seen(vote.block).peerMaj23
                    && vote.validator !in vs.Seen(vote.block).voters))
    ensures !vs.AddVote(vote).added && vs.maj23 != Some(vote.block) ==> vs.AddVote(vote).votes == vs
  {
    hide Power, VoteSet.MajorityExact;
  }

  /** A conflicting vote that is let in counts for its block, but not again for its voter. */
  lemma SecondVoteCounts(vs: VoteSet, vote: Vote)
    requires vs.Valid() && vs.AddVote(vote).added && vote.validator in vs.votes
    ensures var r := vs.AddVote(vote); var w := Weight(vs.vals.powers, vote.validator);
            && r.votes.sum == vs.sum && r.votes.Seen(vote.block).sum == vs.Seen(vote.block).sum + w
            && r.votes.Seen(vote.block).voters == vs.Seen(vote.block).voters + {vote.validator}
  {
    hide Power, VoteSet.MajorityExact;
  }

  /** A vote changes nothing about other blocks, and a majority is recorded as soon as a block has one. */
  lemma OtherBlocksStay(vs: VoteSet, vote: Vote, b: Option<BlockId>)
    requires b != vote.block
    ensures vs.AddVote(vote).votes.Seen(b) == vs.Seen(b)
  {
    hide VoteSet.HasVote;
  }

  lemma MajorityIsRecorded(vs: VoteSet, b: Option<BlockId>)
    requires vs.Valid() && 3 * vs.Seen(b).sum > 2 * vs.vals.total
    ensures vs.maj23.Some?
  {
    hide Power;
    assert b in vs.byBlock;
    assert vs.byBlock[b].sum >= vs.vals.Quorum();
  }

  /** The first claim of a peer about a slot lets conflicting votes for its block in; later ones are ignored. */
  lemma PeerClaimCounts(vs: VoteSet, peer: Peer, b: Option<BlockId>, b': Option<BlockId>)
    ensures var vs' := vs.SetPeerMaj23(peer, b);
            && (peer !in vs.peerMaj23s ==> vs'.Seen(b).peerMaj23 && vs'.peerMaj23s == vs.peerMaj23s[peer := b])
            && (peer in vs.peerMaj23s ==> vs' == vs)
            && vs'.Seen(b').voters == vs.Seen(b').voters && vs'.Seen(b').sum == vs.Seen(b').sum
            && vs'.votes == vs.votes && vs'.sum == vs.sum
  {
  }

  lemma SetPeerMaj23Valid(vs: VoteSet, peer: Peer, b: Option<BlockId>)
    requires vs.Valid()
    ensures vs.SetPeerMaj23(peer, b).Valid() && Grown(vs, vs.SetPeerMaj23(peer, b))
  {
    assert Power(vs.vals.powers, {}) == 0;
    hide Power;
  }

  lemma SetPeerMaj23Kept(vs: VoteSet, peer: Peer, b: Option<BlockId>, known: seq<Vote>)
    requires vs.KeptIn(known)
    ensures vs.SetPeerMaj23(peer, b).KeptIn(known)
  {
  }

  /** A +2/3 majority for one block also is +2/3 of anything: the quorum checks before a wait step cannot fail. */
  lemma MajorityIsTwoThirdsAny(vs: VoteSet)
    requires vs.Valid() && vs.maj23.Some?
    ensures vs.HasTwoThirdsAny()
  {
    PowerMonotone(vs.vals.powers, vs.byBlock[vs.maj23.value].voters, vs.votes.Keys);
  }

  /** The validators that cast a given vote, according to a log. */
  ghost function Voters(log: seq<Vote>, height: nat, round: int, kind: VoteType, b: Option<BlockId>): set<Validator> {
    set v: Vote | v in log && v.height == height && v.round == round && v.kind == kind && v.block == b :: v.validator
  }

  /** More than two thirds of `vals` cast that vote in `log`. */
  ghost predicate Majority(
    vals: ValidatorSet, log: seq<Vote>, height: nat, round: int, kind: VoteType, b: Option<BlockId>)
  {
    IsQuorum(vals, Voters(log, height, round, kind, b))
  }

  lemma MajorityGrows(
    vals: ValidatorSet, log: seq<Vote>, log': seq<Vote>, height: nat, round: int, kind: VoteType, b: Option<BlockId>)
    requires forall v <- log :: v in log'
    requires Majority(vals, log, height, round, kind, b)
    ensures Majority(vals, log', height, round, kind, b)
  {
    PowerMonotone(vals.powers, Voters(log, height, round, kind, b), Voters(log', height, round, kind, b));
  }

  /** A recorded majority is a real one: the quorum it claims is in the log. */
  lemma MajorityIsCast(vs: VoteSet, log: seq<Vote>)
    requires vs.Valid() && vs.KeptIn(log) && vs.maj23.Some?
    ensures Majority(vs.vals, log, vs.height, vs.round, vs.kind, vs.maj23.value)
  {
    var b := vs.maj23.value;
    assert vs.byBlock[b].voters <= Voters(log, vs.height, vs.round, vs.kind, b) by {
      forall v <- vs.byBlock[b].voters
        ensures v in Voters(log, vs.height, vs.round, vs.kind, b)
      {
        assert Vote(v, vs.height, vs.round, vs.kind, b) in log;
      }
    }
    PowerMonotone(vs.vals.powers, vs.byBlock[b].voters, Voters(log, vs.height, vs.round, vs.kind, b));
  }

  datatype RoundVoteSet = RoundVoteSet(prevotes: VoteSet, precommits: VoteSet) {
    function Get(kind: VoteType): VoteSet {
      if kind == Prevote then prevotes else precommits
    }

    function Set(kind: VoteType, vs: VoteSet): RoundVoteSet {
      if kind == Prevote then this.(prevotes := vs) else this.(precommits := vs)
    }
  }

  function NewRound(height: nat, round: int, vals: ValidatorSet): RoundVoteSet {
    RoundVoteSet(NewVoteSet(height, round, Prevote, vals), NewVoteSet(height, round, Precommit, vals))
  }

  /** All vote sets of one height. A round that has no entry reads as an empty (nil) vote set. */
  datatype HeightVoteSet = HeightVoteSet(
    height: nat, vals: ValidatorSet, round: int,
    rounds: map<int, RoundVoteSet>,
    catchup: map<Peer, seq<int>>)                     // at most two unexpected rounds per peer
  {
    function Maj23(r: int, kind: VoteType): Option<Option<BlockId>> {
      if r in rounds then rounds[r].Get(kind).maj23 else None
    }

    predicate TwoThirdsAny(r: int, kind: VoteType) {
      r in rounds && rounds[r].Get(kind).HasTwoThirdsAny()
    }

    predicate HasAll(r: int, kind: VoteType) {
      r in rounds && rounds[r].Get(kind).HasAll()
    }

    /** The vote set of a slot; an untracked round has an empty one. */
    function Slot(r: int, kind: VoteType): VoteSet {
      if r in rounds then rounds[r].Get(kind) else NewVoteSet(height, r, kind, vals)
    }

    /** A round is tracked, or the peer may still open it. */
    predicate Accessible(r: int, peer: Peer) {
      r in rounds || peer !in catchup || |catchup[peer]| < 2
    }

    /** Tracks rounds up to `r`. Calling it with a lower round is the source's panic. */
    function SetRound(r: int): Option<HeightVoteSet> {
      var first := round - 1;
      if round != 0 && r < first then None
      else Some(this.(round := r,
                      rounds := rounds + map q | first <= q <= r && q !in rounds :: NewRound(height, q, vals)))
    }

    /** Last round with a +2/3 prevote majority, or -1. */
    function POLRound(from: int): (r: int)
      ensures -1 <= r && (0 <= from ==> r <= from) && (0 <= r ==> Maj23(r, Prevote).Some?)
      ensures forall q :: r < q <= from && 0 <= q ==> Maj23(q, Prevote).None?
      decreases from + 1
    {
      if from < 0 then -1
      else if Maj23(from, Prevote).Some? then from
      else POLRound(from - 1)
    }

    function AddVote(vote: Vote, peer: Peer): AddResult<HeightVoteSet> {
      if vote.round in rounds then AddToRound(vote)
      else
        var rounds := if peer in catchup then catchup[peer] else [];
        if |rounds| < 2 then
          AddRound(vote.round).(catchup := catchup[peer := rounds + [vote.round]]).AddToRound(vote)
        else AddResult(this, false)
    }

    function AddRound(r: int): (h: HeightVoteSet)
      ensures r in h.rounds
    {
      this.(rounds := rounds[r := NewRound(height, r, vals)])
    }

    function AddToRound(vote: Vote): AddResult<HeightVoteSet>
      requires vote.round in rounds
    {
      var r := rounds[vote.round].Get(vote.kind).AddVote(vote);
      AddResult(this.(rounds := rounds[vote.round := rounds[vote.round].Set(vote.kind, r.votes)]), r.added)
    }

    function SetPeerMaj23(r: int, kind: VoteType, peer: Peer, b: Option<BlockId>): HeightVoteSet {
      if r in rounds then
        this.(rounds := rounds[r := rounds[r].Set(kind, rounds[r].Get(kind).SetPeerMaj23(peer, b))])
      else this
    }

    /** Every slot is a valid vote set for its own round and type, holding only votes of `known`. */
    ghost predicate Valid(known: seq<Vote>) {
      && vals.Valid()
      && forall r <- rounds :: SlotOk(r, Prevote, rounds[r].prevotes, known)
                   && SlotOk(r, Precommit, rounds[r].precommits, known)
    }

    ghost predicate SlotOk(r: int, kind: VoteType, vs: VoteSet, known: seq<Vote>) {
      vs.Valid() && vs.KeptIn(known) && vs.height == height && vs.round == r && vs.kind == kind && vs.vals == vals
    }
  }

  function NewHeightVoteSet(height: nat, vals: ValidatorSet): HeightVoteSet {
    HeightVoteSet(height, vals, 0, map[0 := NewRound(height, 0, vals)], map[])
  }

  /** Majorities already recorded stay recorded. */
  ghost predicate Extends(h: HeightVoteSet, h': HeightVoteSet) {
    && h'.height == h.height && h'.vals == h.vals
    && (forall r, kind :: h.Maj23(r, kind).Some? ==> h'.Maj23(r, kind) == h.Maj23(r, kind))
    && (forall r, kind :: h.TwoThirdsAny(r, kind) ==> h'.TwoThirdsAny(r, kind))
  }

  lemma NewRoundOk(h: HeightVoteSet, r: int, known: seq<Vote>)
    requires h.vals.Valid()
    ensures var rv := NewRound(h.height, r, h.vals);
            h.SlotOk(r, Prevote, rv.prevotes, known) && h.SlotOk(r, Precommit, rv.precommits, known)
  {
  }

  /** Replacing one slot by a grown version of it. */
  lemma SlotGrows(h: HeightVoteSet, r: int, kind: VoteType, vs: VoteSet, known: seq<Vote>)
    requires h.Valid(known) && r in h.rounds && vs.Valid() && vs.KeptIn(known) && Grown(h.rounds[r].Get(kind), vs)
    ensures var h' := h.(rounds := h.rounds[r := h.rounds[r].Set(kind, vs)]); h'.Valid(known) && Extends(h, h')
  {
    hide VoteSet.Valid, VoteSet.KeptIn;
  }

  lemma AddRoundKeeps(h: HeightVoteSet, r: int, known: seq<Vote>)
    requires h.Valid(known) && r !in h.rounds
    ensures h.AddRound(r).Valid(known) && Extends(h, h.AddRound(r))
  {
    hide VoteSet.Valid, VoteSet.KeptIn;
    NewRoundOk(h, r, known);
  }

  lemma AddToRoundKeeps(h: HeightVoteSet, vote: Vote, known: seq<Vote>)
    requires h.Valid(known) && vote in known && vote.round in h.rounds
    ensures var r := h.AddToRound(vote);
            r.votes.Valid(known) && Extends(h, r.votes) && r.votes.round == h.round && vote.round in r.votes.rounds
  {
    hide VoteSet.Valid, VoteSet.KeptIn, VoteSet.AddVote, Extends, Grown;
    AddVoteKeeps(h.rounds[vote.round].Get(vote.kind), vote, known);
    SlotGrows(h, vote.round, vote.kind, h.rounds[vote.round].Get(vote.kind).AddVote(vote).votes, known);
  }

  lemma HeightAddVoteKeeps(h: HeightVoteSet, vote: Vote, peer: Peer, known: seq<Vote>)
    requires h.Valid(known) && vote in known
    ensures var r := h.AddVote(vote, peer);
            && r.votes.Valid(known) && Extends(h, r.votes) && r.votes.round == h.round
            && (r.added ==> vote.round in r.votes.rounds)
  {
    hide VoteSet.Valid, VoteSet.KeptIn, HeightVoteSet.AddToRound;
    if vote.round in h.rounds {
      AddToRoundKeeps(h, vote, known);
    } else {
      AddRoundKeeps(h, vote.round, known);
      var rounds := if peer in h.catchup then h.catchup[peer] else [];
      AddToRoundKeeps(h.AddRound(vote.round).(catchup := h.catchup[peer := rounds + [vote.round]]), vote, known);
    }
  }

  /** The same votes in every slot. */
  ghost predicate SameSlots(h: HeightVoteSet, h': HeightVoteSet) {
    forall q, kind :: h'.Slot(q, kind) == h.Slot(q, kind)
  }

  /**
   * A vote goes to its own slot and to no other. It is refused exactly if its round is unknown and the peer has opened
   * two others already, or if the slot refuses it.
   */
  lemma VoteReachesItsSlot(h: HeightVoteSet, vote: Vote, peer: Peer)
    ensures var r := h.AddVote(vote, peer);
            && (r.added <==> h.Accessible(vote.round, peer) && h.Slot(vote.round, vote.kind).AddVote(vote).added)
            && (!h.Accessible(vote.round, peer) ==> r.votes == h)
            && (h.Accessible(vote.round, peer) ==>
                  && vote.round in r.votes.rounds
                  && r.votes.Slot(vote.round, vote.kind) == h.Slot(vote.round, vote.kind).AddVote(vote).votes
                  && (vote.round !in h.rounds ==>
                        var before := if peer in h.catchup then h.catchup[peer] else [];
                        r.votes.catchup == h.catchup[peer := before + [vote.round]])
                  && (vote.round in h.rounds ==> r.votes.catchup == h.catchup))
            && forall q, kind :: q != vote.round || kind != vote.kind ==> r.votes.Slot(q, kind) == h.Slot(q, kind)
  {
    hide VoteSet.AddVote;
  }

  /** The first vote of a member in a slot of an accessible round is counted there, whatever it is for. */
  lemma HeightFirstVoteCounts(h: HeightVoteSet, vote: Vote, peer: Peer, known: seq<Vote>)
    requires h.Valid(known) && vote.height == h.height && h.Accessible(vote.round, peer)
    requires vote.validator in h.vals.powers && vote.validator !in h.Slot(vote.round, vote.kind).votes
    ensures h.AddVote(vote, peer).added && CountedIn(h, h.AddVote(vote, peer).votes, vote)
  {
    hide VoteSet.AddVote, VoteSet.Seen, VoteSet.KeptIn;
    VoteReachesItsSlot(h, vote, peer);
    NewRoundOk(h, vote.round, known);
    FirstVoteCounts(h.Slot(vote.round, vote.kind), vote);
  }

  /** The vote has raised the power in its slot, and that of its block there, by its weight. */
  ghost predicate CountedIn(h: HeightVoteSet, h': HeightVoteSet, vote: Vote) {
    var vs, vs' := h.Slot(vote.round, vote.kind), h'.Slot(vote.round, vote.kind);
    var w := Weight(h.vals.powers, vote.validator);
    && vs'.sum == vs.sum + w && vs'.Seen(vote.block).sum == vs.Seen(vote.block).sum + w
    && vote.validator in vs'.votes && vote.validator in vs'.Seen(vote.block).voters
  }

  lemma SetRoundTracks(h: HeightVoteSet, r: int)
    requires h.SetRound(r).Some?
    ensures var h' := h.SetRound(r).value;
            && SameSlots(h, h') && h'.round == r
            && h'.height == h.height && h'.vals == h.vals && h'.catchup == h.catchup
            && forall q :: q in h'.rounds <==> q in h.rounds || h.round - 1 <= q <= r
  {
  }

  lemma SetRoundKeeps(h: HeightVoteSet, r: int, known: seq<Vote>)
    requires h.Valid(known) && (h.round == 0 || h.round - 1 <= r)
    ensures var h' := h.SetRound(r);
            h'.Some? && h'.value.Valid(known) && Extends(h, h'.value) && h'.value.round == r
  {
    forall q ensures h.SlotOk(q, Prevote, NewRound(h.height, q, h.vals).prevotes, known)
                  && h.SlotOk(q, Precommit, NewRound(h.height, q, h.vals).precommits, known) {
      NewRoundOk(h, q, known);
    }
  }

  lemma HeightPeerMaj23Keeps(h: HeightVoteSet, r: int, kind: VoteType, peer: Peer, b: Option<BlockId>, known: seq<Vote>)
    requires h.Valid(known)
    ensures var h' := h.SetPeerMaj23(r, kind, peer, b); h'.Valid(known) && Extends(h, h') && h'.round == h.round
  {
    hide VoteSet.Valid, VoteSet.KeptIn, VoteSet.SetPeerMaj23;
    if r in h.rounds {
      SetPeerMaj23Valid(h.rounds[r].Get(kind), peer, b);
      SetPeerMaj23Kept(h.rounds[r].Get(kind), peer, b, known);
      SlotGrows(h, r, kind, h.rounds[r].Get(kind).SetPeerMaj23(peer, b), known);
    }
  }

  lemma RecordedMajorityIsCast(h: HeightVoteSet, log: seq<Vote>, r: int, kind: VoteType)
    requires h.Valid(log) && h.Maj23(r, kind).Some?
    ensures Majority(h.vals, log, h.height, r, kind, h.Maj23(r, kind).value)
  {
    MajorityIsCast(h.rounds[r].Get(kind), log);
  }

  lemma RecordedMajorityIsAny(h: HeightVoteSet, log: seq<Vote>, r: int, kind: VoteType)
    requires h.Valid(log) && h.Maj23(r, kind).Some?
    ensures h.TwoThirdsAny(r, kind)
  {
    MajorityIsTwoThirdsAny(h.rounds[r].Get(kind));
  }

  lemma KeptGrows(vs: VoteSet, known: seq<Vote>, known': seq<Vote>)
    requires vs.KeptIn(known) && forall v <- known :: v in known'
    ensures vs.KeptIn(known')
  {
  }

  lemma KnownGrows(h: HeightVoteSet, known: seq<Vote>, known': seq<Vote>)
    requires h.Valid(known) && forall v <- known :: v in known'
    ensures h.Valid(known')
  {
  }
}
