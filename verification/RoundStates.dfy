/**
 * The consensus round state and its transitions as functions (consensus/state.go). Class ConsensusState.State updates
 * the same fields in place and is proved equal to these functions.
 */
module RoundStates {
  import opened Options
  import opened VotingPower
  import opened VoteSets

  type Step = int
  const NEW_HEIGHT: Step := 1
  const NEW_ROUND: Step := 2
  const PROPOSE: Step := 3
  const PREVOTE: Step := 4
  const PREVOTE_WAIT: Step := 5
  const PRECOMMIT: Step := 6
  const PRECOMMIT_WAIT: Step := 7
  const COMMIT: Step := 8

  datatype Timeout = Timeout(height: nat, round: int, step: Step)

  datatype Proposal = Proposal(height: nat, round: int, polRound: int, block: BlockId)

  /** Parts received for the block that `header` names; None is the zero header. */
  datatype PartSet = PartSet(header: Option<BlockId>, total: nat, have: set<nat>) {
    predicate Complete() {
      |have| == total
    }

    predicate Valid() {
      forall i <- have :: i < total
    }
  }

  /** The panics of the modelled code. */
  datatype Panic =
    | InvalidBlock(block: BlockId)
    | NilLastCommit | MissingLastCommit
    | NoPrevoteQuorum | NoPrecommitQuorum | NoCommitQuorum | NoFinalizeQuorum | NoLastCommitQuorum
    | StalePOL | RoundRegression | BadTimeoutStep
    | WrongHeight | WrongParts | WrongBlock | StateMismatch

  /** Fixed for the whole chain. `valid` is ValidateBlock, `parts` the number of parts of a block. */
  datatype Config = Config(
    initialHeight: nat,
    vals: nat -> ValidatorSet,
    valid: (nat, BlockId) -> bool,
    parts: BlockId -> nat,
    skipTimeoutCommit: bool)
  {
    function NewPartSet(header: Option<BlockId>): PartSet {
      PartSet(header, if header.Some? then parts(header.value) else 0, {})
    }
  }

  /** Answers of the private validator, the application and the mempool during one event. */
  datatype Env = Env(
    cfg: Config,
    signs: (nat, int, VoteType) -> bool,
    accepts: (nat, BlockId) -> bool,
    waits: nat -> bool,
    emptyBlocksInterval: bool,
    needProof: nat -> bool)

  /** `checked`: signature and size checks passed. `readable`: the complete block fits and decodes. */
  datatype Event =
    | ProposalMsg(proposal: Proposal, checked: bool)
    | PartMsg(height: nat, header: BlockId, index: nat, readable: bool)
    | VoteMsg(vote: Vote, peer: Peer)
    | PeerMaj23Msg(height: nat, round: int, kind: VoteType, peer: Peer, block: Option<BlockId>)
    | TimeoutMsg(timeout: Timeout)
    | TxsAvailable

  predicate HashesTo(block: Option<BlockId>, id: Option<BlockId>) {
    block.Some? && block == id
  }

  predicate HasHeader(parts: Option<PartSet>, id: Option<BlockId>) {
    parts.Some? && parts.value.header == id
  }

  /**
   * One node. `log` is the log of all votes cast on the network, in order: signing a vote appends to it. `timeouts` are
   * the timeouts handed to the ticker, `decided` the finalised blocks.
   */
  datatype Node = Node(
    me: Validator,
    height: nat, round: int, step: Step,
    proposal: Option<Proposal>, proposalBlock: Option<BlockId>, proposalParts: Option<PartSet>,
    lockedRound: int, lockedBlock: Option<BlockId>, lockedParts: Option<PartSet>,
    validRound: int, validBlock: Option<BlockId>, validParts: Option<PartSet>,
    votes: HeightVoteSet, commitRound: int, lastCommit: Option<VoteSet>, triggeredPrecommit: bool,
    stateHeight: nat,
    timeouts: set<Timeout>, decided: map<nat, BlockId>, log: seq<Vote>, halted: Option<Panic>)
  {
    function Halt(p: Panic): Node {
      this.(halted := Some(p))
    }

    function MoveTo(r: int, s: Step): Node {
      this.(round := r, step := s)
    }

    function Schedule(t: Timeout): Node {
      this.(timeouts := timeouts + {t})
    }

    function Unlock(): Node {
      this.(lockedRound := -1, lockedBlock := None, lockedParts := None)
    }

    /** signAddVote: the vote carries the node's own height and round, whatever step asked for it. */
    function SignAddVote(e: Env, kind: VoteType, block: Option<BlockId>): Node {
      if me in e.cfg.vals(height).powers && e.signs(height, round, kind) then
        this.(log := log + [Vote(me, height, round, kind, block)])
      else this
    }

    function EnterNewRound(e: Env, h: nat, r: int): Node {
      if halted.Some? || height != h || r < round || (round == r && step != NEW_HEIGHT) then this
      else
        var n := MoveTo(r, NEW_ROUND);
        (if r != 0 then n.ClearProposal() else n).TrackRound(e, h, r)
    }

    function ClearProposal(): Node {
      this.(proposal := None, proposalBlock := None, proposalParts := None)
    }

    /** Keeps vote sets up to the next round, so that later rounds can be skipped to. */
    function TrackRound(e: Env, h: nat, r: int): Node {
      match votes.SetRound(r + 1)
      case None => Halt(RoundRegression)
      case Some(vs) => this.(votes := vs, triggeredPrecommit := false).BeginRound(e, h, r)
    }

    /** Proposes at once, unless round 0 waits for transactions. */
    function BeginRound(e: Env, h: nat, r: int): Node {
      if e.waits(h) && r == 0 then
        if e.emptyBlocksInterval then Schedule(Timeout(h, r, NEW_ROUND)) else this
      else EnterPropose(e, h, r)
    }

    function EnterPropose(e: Env, h: nat, r: int): Node {
      if halted.Some? || height != h || r < round || (round == r && PROPOSE <= step) then this
      else
        var n := Schedule(Timeout(h, r, PROPOSE)).MoveTo(r, PROPOSE);
        if n.IsProposalComplete() then n.EnterPrevote(e, h, n.round) else n
    }

    predicate IsProposalComplete() {
      && proposal.Some? && proposalBlock.Some?
      && (proposal.value.polRound < 0 || votes.Maj23(proposal.value.polRound, Prevote).Some?)
    }

    function EnterPrevote(e: Env, h: nat, r: int): Node {
      if halted.Some? || height != h || r < round || (round == r && PREVOTE <= step) then this
      else SignAddVote(e, Prevote, PrevoteFor(e)).MoveTo(r, PREVOTE)
    }

    /** doPrevote: the locked block, else the proposal block if consensus and application accept it, else nil. */
    function PrevoteFor(e: Env): Option<BlockId> {
      if lockedBlock.Some? then lockedBlock
      else if proposalBlock.None? then None
      else if !e.cfg.valid(height, proposalBlock.value) then None
      else if !e.accepts(height, proposalBlock.value) then None
      else proposalBlock
    }

    function EnterPrevoteWait(e: Env, h: nat, r: int): Node {
      if halted.Some? || height != h || r < round || (round == r && PREVOTE_WAIT <= step) then this
      else if !votes.TwoThirdsAny(r, Prevote) then Halt(NoPrevoteQuorum)
      else Schedule(Timeout(h, r, PREVOTE_WAIT)).MoveTo(r, PREVOTE_WAIT)
    }

    function EnterPrecommit(e: Env, h: nat, r: int): Node {
      if halted.Some? || height != h || r < round || (round == r && PRECOMMIT <= step) then this
      else
        match votes.Maj23(r, Prevote)
        case None => SignAddVote(e, Precommit, None).MoveTo(r, PRECOMMIT)
        case Some(polka) =>
          if votes.POLRound(votes.round) < r then Halt(StalePOL)
          else PrecommitPolka(e, r, polka)
    }

    function PrecommitPolka(e: Env, r: int, polka: Option<BlockId>): Node {
      if polka.None? then
        (if lockedBlock.Some? then Unlock() else this).SignAddVote(e, Precommit, None).MoveTo(r, PRECOMMIT)
      else if HashesTo(lockedBlock, polka) then
        this.(lockedRound := r).SignAddVote(e, Precommit, polka).MoveTo(r, PRECOMMIT)
      else if HashesTo(proposalBlock, polka) then
        if !e.cfg.valid(height, polka.value) then Halt(InvalidBlock(polka.value))
        else this.(lockedRound := r, lockedBlock := proposalBlock, lockedParts := proposalParts)
             .SignAddVote(e, Precommit, polka).MoveTo(r, PRECOMMIT)
      else
        Unlock().FetchBlock(e, polka).SignAddVote(e, Precommit, None).MoveTo(r, PRECOMMIT)
    }

    /** Starts collecting the parts of `id` unless they are already being collected. */
    function FetchBlock(e: Env, id: Option<BlockId>): Node {
      if HasHeader(proposalParts, id) then this
      else this.(proposalBlock := None, proposalParts := Some(e.cfg.NewPartSet(id)))
    }

    function EnterPrecommitWait(e: Env, h: nat, r: int): Node {
      if halted.Some? || height != h || r < round || (round == r && triggeredPrecommit) then this
      else if !votes.TwoThirdsAny(r, Precommit) then Halt(NoPrecommitQuorum)
      else Schedule(Timeout(h, r, PRECOMMIT_WAIT)).(triggeredPrecommit := true)
    }

    function EnterCommit(e: Env, h: nat, r: int): Node {
      if halted.Some? || height != h || COMMIT <= step then this
      else
        match votes.Maj23(r, Precommit)
        case None => Halt(NoCommitQuorum)
        case Some(id) =>
          CommitBlock(e, id).MoveTo(round, COMMIT).(commitRound := r).TryFinalizeCommit(e, h)
    }

    /** The committed block becomes the proposal block if it is the locked one, or is fetched. */
    function CommitBlock(e: Env, id: Option<BlockId>): Node {
      var n := if HashesTo(lockedBlock, id) then this.(proposalBlock := lockedBlock, proposalParts := lockedParts)
               else this;
      if HashesTo(n.proposalBlock, id) then n else n.FetchBlock(e, id)
    }

    function TryFinalizeCommit(e: Env, h: nat): Node {
      if halted.Some? then this
      else if height != h then Halt(WrongHeight)
      else
        match votes.Maj23(commitRound, Precommit)
        case Some(Some(b)) => if HashesTo(proposalBlock, Some(b)) then FinalizeCommit(e, h) else this
        case _ => this
    }

    function FinalizeCommit(e: Env, h: nat): Node {
      if halted.Some? || height != h || step != COMMIT then this
      else
        match votes.Maj23(commitRound, Precommit)
        case None => Halt(NoFinalizeQuorum)
        case Some(id) =>
          if !HasHeader(proposalParts, id) then Halt(WrongParts)
          else if !HashesTo(proposalBlock, id) then Halt(WrongBlock)
          else if !e.cfg.valid(height, id.value) then Halt(InvalidBlock(id.value))
          else
            var n := this.(decided := decided[h := id.value]).UpdateToState(e, h);
            if n.halted.Some? then n else n.Schedule(Timeout(n.height, 0, NEW_HEIGHT))
    }

    /** updateToState: `last` is the LastBlockHeight of the new state. */
    function UpdateToState(e: Env, last: nat): Node {
      if commitRound > -1 && 0 < height && height != last then Halt(StateMismatch)
      else if stateHeight > 0 && stateHeight + 1 != height then Halt(StateMismatch)
      else if stateHeight > 0 && height == e.cfg.initialHeight then Halt(StateMismatch)
      else if last <= stateHeight then this
      else if commitRound > -1 && votes.Maj23(commitRound, Precommit).None? then Halt(NoLastCommitQuorum)
      else if commitRound <= -1 && lastCommit.None? then Halt(MissingLastCommit)
      else
        NewHeight(e, last + 1,
                  if commitRound > -1 && commitRound in votes.rounds then Some(votes.rounds[commitRound].precommits)
                  else lastCommit)
          .(stateHeight := last)
    }

    function NewHeight(e: Env, h: nat, last: Option<VoteSet>): Node {
      this.(height := h, round := 0, step := NEW_HEIGHT,
            proposal := None, proposalBlock := None, proposalParts := None,
            lockedRound := -1, lockedBlock := None, lockedParts := None,
            validRound := -1, validBlock := None, validParts := None,
            votes := NewHeightVoteSet(h, e.cfg.vals(h)),
            commitRound := -1, lastCommit := last, triggeredPrecommit := false)
    }

    function SetProposal(e: Env, p: Proposal, checked: bool): Node {
      if proposal.Some? then this
      else if p.height != height || p.round != round then this
      else if p.polRound < -1 || (p.polRound >= 0 && p.polRound >= p.round) then this
      else if !checked then this
      else
        var n := this.(proposal := Some(p));
        if proposalParts.None? then n.(proposalParts := Some(e.cfg.NewPartSet(Some(p.block)))) else n
    }

    /** addProposalBlockPart followed by the completion check of handleMsg. */
    function AddBlockPart(e: Env, h: nat, header: BlockId, index: nat, readable: bool): Node {
      if height != h || proposalParts.None? then this
      else
        var ps := proposalParts.value;
        if index >= ps.total || index in ps.have || ps.header != Some(header) then this
        else
          var n := this.(proposalParts := Some(ps.(have := ps.have + {index})));
          if !n.proposalParts.value.Complete() then n
          else (if readable then n.(proposalBlock := ps.header) else n).HandleCompleteProposal(e, h)
    }

    function HandleCompleteProposal(e: Env, h: nat): Node {
      var polka := votes.Maj23(round, Prevote);
      var n := if polka.Some? && polka.value.Some? && validRound < round && HashesTo(proposalBlock, polka.value)
               then SetValid(round) else this;
      if n.step <= PROPOSE && n.IsProposalComplete() then
        var voted := n.EnterPrevote(e, h, n.round);
        if polka.Some? then voted.EnterPrecommit(e, h, voted.round) else voted
      else if n.step == COMMIT then n.TryFinalizeCommit(e, h)
      else n
    }

    function SetValid(r: int): Node {
      this.(validRound := r, validBlock := proposalBlock, validParts := proposalParts)
    }

    function AddVote(e: Env, vote: Vote, peer: Peer): Node {
      if vote.height + 1 == height && vote.kind == Precommit then AddLastCommitVote(e, vote)
      else if vote.height != height then this
      else
        var r := votes.AddVote(vote, peer);
        var n := this.(votes := r.votes);
        if !r.added then n
        else if vote.kind == Prevote then n.OnPrevote(e, vote.round)
        else n.OnPrecommit(e, vote.round)
    }

    function AddLastCommitVote(e: Env, vote: Vote): Node {
      if step != NEW_HEIGHT then this
      else if lastCommit.None? then Halt(NilLastCommit)
      else
        var r := lastCommit.value.AddVote(vote);
        var n := this.(lastCommit := Some(r.votes));
        if r.added && e.cfg.skipTimeoutCommit && r.votes.HasAll() then n.EnterNewRound(e, height, 0) else n
    }

    function OnPrevote(e: Env, r: int): Node {
      var n := match votes.Maj23(r, Prevote)
               case None => this
               case Some(polka) => UnlockOn(r, polka).UpdateValid(e, r, polka);
      if n.round < r && n.votes.TwoThirdsAny(r, Prevote) then n.EnterNewRound(e, height, r)
      else if n.round == r && PREVOTE <= n.step then
        var polka := n.votes.Maj23(r, Prevote);
        if polka.Some? && (n.IsProposalComplete() || polka.value.None?) then n.EnterPrecommit(e, height, r)
        else if n.votes.TwoThirdsAny(r, Prevote) then n.EnterPrevoteWait(e, height, r)
        else n
      else if n.proposal.Some? && 0 <= n.proposal.value.polRound
              && n.proposal.value.polRound == r && n.IsProposalComplete() then
        n.EnterPrevote(e, height, n.round)
      else n
    }

    /** A polka for something else, newer than the lock and not from a future round, releases the lock. */
    function UnlockOn(r: int, polka: Option<BlockId>): Node {
      if lockedBlock.Some? && lockedRound < r <= round && !HashesTo(lockedBlock, polka) then Unlock() else this
    }

    function UpdateValid(e: Env, r: int, polka: Option<BlockId>): Node {
      if polka.Some? && validRound < r && r == round then
        var n := if HashesTo(proposalBlock, polka) then SetValid(r) else this.(proposalBlock := None);
        if HasHeader(n.proposalParts, polka) then n else n.(proposalParts := Some(e.cfg.NewPartSet(polka)))
      else this
    }

    function OnPrecommit(e: Env, r: int): Node {
      match votes.Maj23(r, Precommit)
      case Some(id) =>
        var n := EnterNewRound(e, height, r).EnterPrecommit(e, height, r);
        if id.Some? then
          var c := n.EnterCommit(e, height, r);
          if e.cfg.skipTimeoutCommit && votes.HasAll(r, Precommit) then c.EnterNewRound(e, c.height, 0) else c
        else n.EnterPrecommitWait(e, height, r)
      case None =>
        if round <= r && votes.TwoThirdsAny(r, Precommit) then
          EnterNewRound(e, height, r).EnterPrecommitWait(e, height, r)
        else this
    }

    function HandleTimeout(e: Env, t: Timeout): Node {
      if t.height != height || t.round < round || (t.round == round && t.step < step) then this
      else if t.step == NEW_HEIGHT then EnterNewRound(e, t.height, 0)
      else if t.step == NEW_ROUND then EnterPropose(e, t.height, t.round)
      else if t.step == PROPOSE then EnterPrevote(e, t.height, t.round)
      else if t.step == PREVOTE_WAIT then EnterPrecommit(e, t.height, t.round)
      else if t.step == PRECOMMIT_WAIT then EnterPrecommit(e, t.height, t.round).EnterNewRound(e, t.height, t.round + 1)
      else Halt(BadTimeoutStep)
    }

    function HandleTxsAvailable(e: Env): Node {
      if round != 0 then this
      else if step == NEW_HEIGHT then
        if e.needProof(height) then this else Schedule(Timeout(height, 0, NEW_ROUND))
      else if step == NEW_ROUND then EnterPropose(e, height, 0)
      else this
    }

    /** One iteration of receiveRoutine; a halted node does nothing more. */
    function Handle(e: Env, ev: Event): Node {
      if halted.Some? then this
      else
        match ev
        case ProposalMsg(p, checked) => SetProposal(e, p, checked)
        case PartMsg(h, header, index, readable) => AddBlockPart(e, h, header, index, readable)
        case VoteMsg(vote, peer) => AddVote(e, vote, peer)
        case PeerMaj23Msg(h, r, kind, peer, b) =>
          if h == height then this.(votes := votes.SetPeerMaj23(r, kind, peer, b)) else this
        case TimeoutMsg(t) => HandleTimeout(e, t)
        case TxsAvailable => HandleTxsAvailable(e)
    }
  }

  /** A node started from the genesis state, with round 0 scheduled. */
  function Genesis(cfg: Config, me: Validator): Node {
    var h := cfg.initialHeight;
    Node(me, h, 0, NEW_HEIGHT, None, None, None, -1, None, None, -1, None, None,
         NewHeightVoteSet(h, cfg.vals(h)), -1, None, false, 0, {Timeout(h, 0, NEW_HEIGHT)}, map[], [], None)
  }
}
