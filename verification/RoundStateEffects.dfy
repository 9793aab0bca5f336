/**
 * What the steps of a node must do: which vote they cast, what they lock, which round they enter and which timeout they
 * schedule, stated on the fields of the state and on the log of votes.
 */
module RoundStateEffects {
  import opened Options
  import opened VotingPower
  import opened VoteSets
  import opened RoundStates
  import opened RoundStateInvariant
  import opened RoundStateSafety
  import opened RoundStateProgress

  // ----- votes -------------------------------------------------------------------------------------

  /** The node is a validator of its height and its key answers. */
  predicate Signs(e: Env, n: Node, kind: VoteType) {
    n.me in e.cfg.vals(n.height).powers && e.signs(n.height, n.round, kind)
  }

  /** Exactly this vote is appended to the log, or none if the node does not sign. */
  predicate Casts(e: Env, n: Node, n': Node, kind: VoteType, b: Option<BlockId>) {
    n'.log == if Signs(e, n, kind) then n.log + [Vote(n.me, n.height, n.round, kind, b)] else n.log
  }

  /** A prevote for the locked block, else for a proposal that consensus and application accept, else for nil. */
  ghost predicate PrevoteIs(e: Env, n: Node, b: Option<BlockId>) {
    forall x :: b == Some(x) <==>
      || n.lockedBlock == Some(x)
      || (n.lockedBlock.None? && n.proposalBlock == Some(x) && e.cfg.valid(n.height, x) && e.accepts(n.height, x))
  }

  ghost predicate CastsPrevote(e: Env, n: Node, n': Node) {
    exists b :: PrevoteIs(e, n, b) && Casts(e, n, n', Prevote, b)
  }

  lemma PrevoteIsCast(e: Env, n: Node)
    ensures CastsPrevote(e, n, n.SignAddVote(e, Prevote, n.PrevoteFor(e)))
  {
    var b := n.PrevoteFor(e);
    assert PrevoteIs(e, n, b);
    assert Casts(e, n, n.SignAddVote(e, Prevote, b), Prevote, b);
  }

  /** Entering the prevote step of the current round casts the prevote of the rules, and nothing else happens. */
  lemma PrevoteStep(e: Env, n: Node)
    requires n.halted.None? && n.step < PREVOTE
    ensures var n' := n.EnterPrevote(e, n.height, n.round);
            CastsPrevote(e, n, n') && n' == n.(step := PREVOTE, log := n'.log)
  {
    var b := n.PrevoteFor(e);
    assert PrevoteIs(e, n, b);
    assert Casts(e, n, n.EnterPrevote(e, n.height, n.round), Prevote, b);
  }

  predicate SameLock(n: Node, n': Node) {
    n'.lockedRound == n.lockedRound && n'.lockedBlock == n.lockedBlock && n'.lockedParts == n.lockedParts
  }

  predicate SameValid(n: Node, n': Node) {
    n'.validRound == n.validRound && n'.validBlock == n.validBlock && n'.validParts == n.validParts
  }

  predicate SameProposal(n: Node, n': Node) {
    n'.proposal == n.proposal && n'.proposalBlock == n.proposalBlock && n'.proposalParts == n.proposalParts
  }

  predicate NoLock(n: Node) {
    n.lockedRound == -1 && n.lockedBlock.None? && n.lockedParts.None?
  }

  /** All but the lock, the proposal, the step, the log and a panic. */
  predicate SameRest(n: Node, n': Node) {
    && n'.me == n.me && n'.height == n.height && n'.round == n.round && n'.votes == n.votes && SameValid(n, n')
    && n'.commitRound == n.commitRound && n'.lastCommit == n.lastCommit
    && n'.triggeredPrecommit == n.triggeredPrecommit && n'.stateHeight == n.stateHeight
    && n'.timeouts == n.timeouts && n'.decided == n.decided
  }

  /**
   * The precommit that the recorded prevotes of the current round call for, and the lock that goes with it. A majority
   * for a block that is locked, or proposed and valid, is precommitted and locked.
   */
  predicate Precommitted(e: Env, n: Node, n': Node) {
    && SameRest(n, n')
    && match n.votes.Maj23(n.round, Prevote)
       case None => Casts(e, n, n', Precommit, None) && SameLock(n, n') && SameProposal(n, n') && Stepped(n')
       case Some(None) => Casts(e, n, n', Precommit, None) && NoLock(n') && SameProposal(n, n') && Stepped(n')
       case Some(Some(b)) =>
         if n.lockedBlock == Some(b) || (n.proposalBlock == Some(b) && e.cfg.valid(n.height, b)) then
           && Casts(e, n, n', Precommit, Some(b)) && SameProposal(n, n') && Stepped(n')
           && n'.lockedBlock == Some(b) && n'.lockedRound == n.round
           && n'.lockedParts == if n.lockedBlock == Some(b) then n.lockedParts else n.proposalParts
         else if n.proposalBlock == Some(b) then n' == n.(halted := Some(InvalidBlock(b)))
         else
           && Casts(e, n, n', Precommit, None) && NoLock(n') && Stepped(n')
           && n'.proposal == n.proposal && Collects(e, n, n', b)
  }

  predicate Stepped(n: Node) {
    n.step == PRECOMMIT && n.halted.None?
  }

  /** The node collects the parts of `b`; what it has of them already is kept. */
  predicate Collects(e: Env, n: Node, n': Node, b: BlockId) {
    if HasHeader(n.proposalParts, Some(b)) then
      n'.proposalParts == n.proposalParts && n'.proposalBlock == n.proposalBlock
    else n'.proposalParts == Some(PartSet(Some(b), e.cfg.parts(b), {})) && n'.proposalBlock.None?
  }

  /** Signing does nothing but append to the log. */
  lemma SignCasts(e: Env, n: Node, kind: VoteType, b: Option<BlockId>)
    ensures var n' := n.SignAddVote(e, kind, b); n' == n.(log := n'.log) && Casts(e, n, n', kind, b)
  {
  }

  lemma PolkaStep(e: Env, n: Node, polka: Option<BlockId>)
    requires n.halted.None? && n.votes.Maj23(n.round, Prevote) == Some(polka) && (n.lockedBlock.None? ==> NoLock(n))
    ensures Precommitted(e, n, n.PrecommitPolka(e, n.round, polka))
  {
    hide Node.SignAddVote, HeightVoteSet.Maj23;
    if polka.None? {
      SignCasts(e, if n.lockedBlock.Some? then n.Unlock() else n, Precommit, None);
    } else if HashesTo(n.lockedBlock, polka) {
      SignCasts(e, n.(lockedRound := n.round), Precommit, polka);
    } else if HashesTo(n.proposalBlock, polka) {
      var locked := n.(lockedRound := n.round, lockedBlock := n.proposalBlock, lockedParts := n.proposalParts);
      SignCasts(e, locked, Precommit, polka);
    } else {
      SignCasts(e, n.Unlock().FetchBlock(e, polka), Precommit, None);
    }
  }

  lemma FactsAtPrecommit(cfg: Config, n: Node)
    requires Inv(cfg, n)
    ensures n.lockedBlock.None? ==> NoLock(n)
    ensures n.votes.Maj23(n.round, Prevote).Some? ==> n.round <= n.votes.POLRound(n.votes.round)
  {
    hide HeightOk, StepsOk, LogOk, LockOk, HaltOk, HeightVoteSet.Maj23;
    if n.votes.Maj23(n.round, Prevote).Some? {
      POLIsCurrent(cfg, n);
    }
  }

  /** Entering the precommit step of the current round. */
  lemma PrecommitStep(cfg: Config, e: Env, n: Node)
    requires Inv(cfg, n) && e.cfg == cfg && n.halted.None? && n.step < PRECOMMIT
    ensures Precommitted(e, n, n.EnterPrecommit(e, n.height, n.round))
  {
    hide Inv, HeightVoteSet.Maj23, HeightVoteSet.POLRound, Node.PrecommitPolka, Node.SignAddVote;
    match n.votes.Maj23(n.round, Prevote)
    case None =>
      SignCasts(e, n, Precommit, None);
    case Some(polka) =>
      FactsAtPrecommit(cfg, n);
      PolkaStep(e, n, polka);
  }

  // ----- rounds ------------------------------------------------------------------------------------

  /** The proposal, its block and, if it names an earlier round, the prevote majority of that round are there. */
  predicate HasProposal(n: Node) {
    match n.proposal
    case None => false
    case Some(p) => n.proposalBlock.Some? && (p.polRound < 0 || n.votes.Maj23(p.polRound, Prevote).Some?)
  }

  /** The propose timeout is scheduled; a proposal that is already there is prevoted on at once. */
  ghost predicate Proposed(e: Env, n: Node, n': Node) {
    && n'.timeouts == n.timeouts + {Timeout(n.height, n.round, PROPOSE)}
    && if HasProposal(n) then n'.step == PREVOTE && CastsPrevote(e, n, n') else n'.step == PROPOSE && n'.log == n.log
  }

  lemma ProposeStep(e: Env, n: Node)
    requires n.halted.None? && n.step < PROPOSE
    ensures var n' := n.EnterPropose(e, n.height, n.round);
            Proposed(e, n, n') && n' == n.(step := n'.step, log := n'.log, timeouts := n'.timeouts)
  {
    hide HeightVoteSet.Maj23, Node.EnterPrevote, CastsPrevote;
    var n1 := n.Schedule(Timeout(n.height, n.round, PROPOSE)).MoveTo(n.round, PROPOSE);
    PrevoteStep(e, n1);
    SamePrevote(e, n1, n, n1.EnterPrevote(e, n.height, n.round));
  }

  /** What is prevoted depends on log, lock, proposal, height and round only. */
  lemma SamePrevote(e: Env, n: Node, m: Node, n': Node)
    requires CastsPrevote(e, n, n') && n.log == m.log && n.me == m.me && n.height == m.height && n.round == m.round
    requires n.lockedBlock == m.lockedBlock && n.proposalBlock == m.proposalBlock
    ensures CastsPrevote(e, m, n')
  {
    var b :| PrevoteIs(e, n, b) && Casts(e, n, n', Prevote, b);
    assert PrevoteIs(e, m, b) && Casts(e, m, n', Prevote, b);
  }

  /** Lock, valid block and votes are kept; the proposal is forgotten unless it is the first round. */
  ghost predicate CarriedOver(n: Node, n': Node, r: int) {
    && n'.me == n.me && n'.height == n.height && n'.round == r && n'.halted.None? && SameLock(n, n') && SameValid(n, n')
    && SameSlots(n.votes, n'.votes) && n'.votes.round == r + 1 && !n'.triggeredPrecommit
    && n'.commitRound == n.commitRound && n'.lastCommit == n.lastCommit
    && n'.stateHeight == n.stateHeight && n'.decided == n.decided
    && if r == 0 then SameProposal(n, n') else n'.proposal.None? && n'.proposalBlock.None? && n'.proposalParts.None?
  }

  /** The node proposes, unless the first round waits for transactions. */
  ghost predicate RoundBegun(e: Env, n: Node, n': Node) {
    if e.waits(n.height) && n.round == 0 then
      && n'.step == NEW_ROUND && n'.log == n.log
      && n'.timeouts == n.timeouts + if e.emptyBlocksInterval then {Timeout(n.height, n.round, NEW_ROUND)} else {}
    else Proposed(e, n, n')
  }

  ghost predicate RoundEntered(e: Env, n: Node, n': Node, r: int) {
    CarriedOver(n, n', r) && RoundBegun(e, n'.(log := n.log, timeouts := n.timeouts), n')
  }

  lemma BeginStep(e: Env, n: Node)
    requires n.halted.None? && n.step == NEW_ROUND
    ensures var n' := n.BeginRound(e, n.height, n.round);
            RoundBegun(e, n, n') && n' == n.(step := n'.step, log := n'.log, timeouts := n'.timeouts)
  {
    hide Node.EnterPropose, Proposed;
    ProposeStep(e, n);
  }

  /** The state in which round `r` begins. */
  function Opened(n: Node, r: int): Node
    requires n.votes.SetRound(r + 1).Some?
  {
    var n0 := if r != 0 then n.ClearProposal() else n;
    n0.MoveTo(r, NEW_ROUND).(votes := n.votes.SetRound(r + 1).value, triggeredPrecommit := false)
  }

  lemma OpenedCarries(n: Node, r: int)
    requires n.votes.SetRound(r + 1).Some? && n.halted.None?
    ensures CarriedOver(n, Opened(n, r), r) && Opened(n, r).log == n.log && Opened(n, r).timeouts == n.timeouts
  {
    hide HeightVoteSet.SetRound, SameSlots;
    SetRoundTracks(n.votes, r + 1);
  }

  lemma EntersOpened(e: Env, n: Node, r: int)
    requires n.votes.SetRound(r + 1).Some? && n.halted.None?
    requires n.round < r || (n.round == r && n.step == NEW_HEIGHT)
    ensures n.EnterNewRound(e, n.height, r) == Opened(n, r).BeginRound(e, n.height, r)
  {
    hide HeightVoteSet.SetRound, Node.BeginRound;
  }

  /** Entering a later round, or round zero of a new height. */
  lemma NewRoundStep(cfg: Config, e: Env, n: Node, r: int)
    requires Inv(cfg, n) && e.cfg == cfg && n.halted.None? && (n.round < r || (n.round == r && n.step == NEW_HEIGHT))
    ensures RoundEntered(e, n, n.EnterNewRound(e, n.height, r), r)
  {
    hide Inv, HeightVoteSet.SetRound, Node.BeginRound, Node.EnterNewRound, SameSlots, Proposed;
    CanTrack(cfg, n, r + 1);
    OpenedCarries(n, r);
    EntersOpened(e, n, r);
    var n1 := Opened(n, r);
    BeginStep(e, n1);
    var n' := n1.BeginRound(e, n.height, r);
    var m := n'.(log := n.log, timeouts := n.timeouts);
    assert m == n1.(step := m.step);
    if !(e.waits(n.height) && r == 0) {
      SameProposed(e, n1, m, n');
    }
  }

  lemma SameProposed(e: Env, n: Node, m: Node, n': Node)
    requires Proposed(e, n, n') && n == m.(step := n.step)
    ensures Proposed(e, m, n')
  {
    hide CastsPrevote;
    if HasProposal(n) {
      SamePrevote(e, n, m, n');
    }
  }

  lemma CanTrack(cfg: Config, n: Node, r: int)
    requires Inv(cfg, n) && n.round < r
    ensures n.votes.SetRound(r).Some?
  {
    hide HeightOk, FieldsOk, StepsOk, LogOk, LockOk, HaltOk;
  }

  // ----- timeouts ----------------------------------------------------------------------------------

  /**
   * A timeout of the current round that is not behind the node's step moves it on: into round zero, to the proposal, to
   * the prevote, to the precommit, or through the precommit into the next round. Any other changes nothing.
   */
  lemma TimeoutMovesOn(cfg: Config, e: Env, n: Node, t: Timeout) returns (m: Node)
    requires Inv(cfg, n) && e.cfg == cfg && n.halted.None? && TimeoutOk(n, t)
    ensures var n' := n.Handle(e, TimeoutMsg(t));
            if t.height < n.height || t.round < n.round || t.step < n.step then n' == n
            else if t.step == NEW_HEIGHT then RoundEntered(e, n, n', 0)
            else if t.step == NEW_ROUND then
              Proposed(e, n, n') && n' == n.(step := n'.step, log := n'.log, timeouts := n'.timeouts)
            else if t.step == PROPOSE then
              if n.step < PREVOTE then CastsPrevote(e, n, n') && n' == n.(step := PREVOTE, log := n'.log) else n' == n
            else if t.step == PREVOTE_WAIT then
              if n.step < PRECOMMIT then Precommitted(e, n, n') else n' == n
            else
              && (if n.step < PRECOMMIT then Precommitted(e, n, m) else m == n)
              && if m.halted.Some? then n' == m else RoundEntered(e, m, n', t.round + 1)
  {
    hide Inv, HeightVoteSet.Maj23, Node.EnterPrecommit, Node.EnterPrevote, Node.EnterPropose, Node.EnterNewRound;
    hide RoundEntered, Proposed, CastsPrevote, Precommitted;
    NewHeightIsRoundZero(cfg, n);
    m := n;
    if t.height < n.height || t.round < n.round || t.step < n.step {
    } else if t.step == NEW_HEIGHT {
      NewRoundStep(cfg, e, n, 0);
    } else if t.step == NEW_ROUND {
      ProposeStep(e, n);
    } else if t.step == PROPOSE {
      if n.step < PREVOTE {
        PrevoteStep(e, n);
      }
    } else if t.step == PREVOTE_WAIT {
      if n.step < PRECOMMIT {
        PrecommitStep(cfg, e, n);
      }
    } else {
      m := n.EnterPrecommit(e, n.height, n.round);
      EnterPrecommitKeeps(cfg, e, n, n.height, n.round);
      AfterPrecommit(cfg, e, n);
      if m.halted.None? {
        NewRoundStep(cfg, e, m, t.round + 1);
      } else {
        HaltedStays(e, m, m.height, t.round + 1);
      }
    }
  }

  lemma HaltedStays(e: Env, n: Node, h: nat, r: int)
    requires n.halted.Some?
    ensures n.EnterNewRound(e, h, r) == n
  {
  }

  lemma AfterPrecommit(cfg: Config, e: Env, n: Node)
    requires Inv(cfg, n) && e.cfg == cfg && n.halted.None?
    ensures var m := n.EnterPrecommit(e, n.height, n.round);
            && m.round == n.round && m.height == n.height
            && if n.step < PRECOMMIT then Precommitted(e, n, m) else m == n
  {
    hide Inv;
    if n.step < PRECOMMIT {
      PrecommitStep(cfg, e, n);
    }
  }

  // ----- proposals and their blocks ----------------------------------------------------------------

  /** A checked proposal is taken exactly if it is the first of this round and names an earlier round or none. */
  lemma ProposalTaken(e: Env, n: Node, p: Proposal, checked: bool)
    requires n.halted.None?
    ensures var n' := n.Handle(e, ProposalMsg(p, checked));
            var taken := && n.proposal.None? && p.height == n.height && p.round == n.round && checked
                         && (p.polRound == -1 || 0 <= p.polRound < p.round);
            && n' == n.(proposal := n'.proposal, proposalParts := n'.proposalParts)
            && n'.proposal == (if taken then Some(p) else n.proposal)
            && n'.proposalParts == if taken && n.proposalParts.None?
                                   then Some(PartSet(Some(p.block), e.cfg.parts(p.block), {})) else n.proposalParts
  {
  }

  /** A part that fits the block being collected and is not there yet. */
  predicate Fits(n: Node, h: nat, b: BlockId, index: nat) {
    && n.height == h && n.proposalParts.Some?
    && var ps := n.proposalParts.value; ps.header == Some(b) && index < ps.total && index !in ps.have
  }

  /** The part is kept; the last one, if the block can be read, makes it the proposal block. */
  function WithPart(n: Node, b: BlockId, index: nat, readable: bool): Node
    requires n.proposalParts.Some?
  {
    var ps := n.proposalParts.value;
    var more := Some(ps.(have := ps.have + {index}));
    if |ps.have + {index}| == ps.total && readable then n.(proposalParts := more, proposalBlock := Some(b))
    else n.(proposalParts := more)
  }

  lemma PartTaken(e: Env, n: Node, h: nat, b: BlockId, index: nat, readable: bool)
    requires n.halted.None?
    ensures var n' := n.Handle(e, PartMsg(h, b, index, readable));
            && (!Fits(n, h, b, index) ==> n' == n)
            && (Fits(n, h, b, index) && |n.proposalParts.value.have + {index}| != n.proposalParts.value.total ==>
                  n' == WithPart(n, b, index, readable))
  {
  }

  /** A block with a prevote majority in the current round becomes the valid block. */
  predicate ValidSet(n: Node, n': Node) {
    var polka := n.votes.Maj23(n.round, Prevote);
    if n.proposalBlock.Some? && polka == Some(n.proposalBlock) && n.validRound < n.round then
      n' == n.(validRound := n.round, validBlock := n.proposalBlock, validParts := n.proposalParts)
    else n' == n
  }

  /**
   * The part that completes the block: the valid block may move; before the prevote step a complete proposal is
   * prevoted on, and precommitted on if its round has a majority already; in the commit step the committed block is
   * finalised.
   */
  lemma LastPartHandled(cfg: Config, e: Env, n: Node, b: BlockId, index: nat, readable: bool) returns (v: Node, m: Node)
    requires Inv(cfg, n) && ConfigOk(cfg) && e.cfg == cfg && n.halted.None? && Fits(n, n.height, b, index)
    requires |n.proposalParts.value.have + {index}| == n.proposalParts.value.total
    ensures ValidSet(WithPart(n, b, index, readable), v)
    ensures var n' := n.Handle(e, PartMsg(n.height, b, index, readable));
            if n.step <= PROPOSE && HasProposal(v) then
              && CastsPrevote(e, v, m) && m == v.(step := PREVOTE, log := m.log)
              && if n.votes.Maj23(n.round, Prevote).Some? then Precommitted(e, m, n') else n' == m
            else if n.step == COMMIT && v.proposalBlock.Some? && CommittedBlock(v) == v.proposalBlock then
              cfg.valid(n.height, v.proposalBlock.value) ==> Decided(n, n', v.proposalBlock.value)
            else n' == v
  {
    hide Inv, HeightVoteSet.Maj23, Node.HandleCompleteProposal, HasProposal, CastsPrevote, Precommitted, Decided;
    var n1 := WithPart(n, b, index, readable);
    WithPartKeeps(cfg, n, b, index, readable);
    v, m := CompleteHandled(cfg, e, n1);
    assert n.Handle(e, PartMsg(n.height, b, index, readable)) == n1.HandleCompleteProposal(e, n.height);
    SameDecided(n, n1);
  }

  lemma SameDecided(n: Node, m: Node)
    requires n.decided == m.decided && n.height == m.height
    ensures forall n', b :: Decided(n, n', b) == Decided(m, n', b)
  {
  }

  lemma CompleteHandled(cfg: Config, e: Env, n: Node) returns (v: Node, m: Node)
    requires Inv(cfg, n) && ConfigOk(cfg) && e.cfg == cfg && n.halted.None?
    ensures ValidSet(n, v)
    ensures var n' := n.HandleCompleteProposal(e, n.height);
            if n.step <= PROPOSE && HasProposal(v) then
              && CastsPrevote(e, v, m) && m == v.(step := PREVOTE, log := m.log)
              && if n.votes.Maj23(n.round, Prevote).Some? then Precommitted(e, m, n') else n' == m
            else if n.step == COMMIT && v.proposalBlock.Some? && CommittedBlock(v) == v.proposalBlock then
              cfg.valid(n.height, v.proposalBlock.value) ==> Decided(n, n', v.proposalBlock.value)
            else n' == v
  {
    hide Inv, HeightVoteSet.Maj23, Node.EnterPrevote, Node.EnterPrecommit, Node.TryFinalizeCommit;
    hide CastsPrevote, Precommitted;
    v := if n.proposalBlock.Some? && n.votes.Maj23(n.round, Prevote) == Some(n.proposalBlock) && n.validRound < n.round
    then n.SetValid(n.round) else n;
    if v != n {
      ValidKeeps(cfg, n);
    }
    m := v;
    if n.step <= PROPOSE && HasProposal(v) {
      PrevoteStep(e, v);
      EnterPrevoteKeeps(cfg, e, v, v.height, v.round);
      m := v.EnterPrevote(e, v.height, v.round);
      PrecommitStep(cfg, e, m);
    } else if n.step == COMMIT {
      CommitStepHandled(cfg, e, v);
    }
  }

  lemma WithPartKeeps(cfg: Config, n: Node, b: BlockId, index: nat, readable: bool)
    requires Inv(cfg, n) && n.halted.None? && Fits(n, n.height, b, index)
    ensures Inv(cfg, WithPart(n, b, index, readable))
  {
    hide Inv;
    ProposalIsOk(cfg, n);
    if n.proposalBlock.Some? {
      CompleteHasAll(n.proposalParts.value, index);
    }
    ProposalKeeps(cfg, n, WithPart(n, b, index, readable));
  }

  lemma CommitStepHandled(cfg: Config, e: Env, n: Node)
    requires Inv(cfg, n) && ConfigOk(cfg) && e.cfg == cfg && n.halted.None? && n.step == COMMIT
    ensures var n' := n.TryFinalizeCommit(e, n.height);
            if n.proposalBlock.Some? && CommittedBlock(n) == n.proposalBlock then
              cfg.valid(n.height, n.proposalBlock.value) ==> Decided(n, n', n.proposalBlock.value)
            else n' == n
  {
    hide Inv, HeightVoteSet.Maj23, Node.FinalizeCommit;
    if n.proposalBlock.Some? && CommittedBlock(n) == n.proposalBlock && cfg.valid(n.height, n.proposalBlock.value) {
      FinalizeDecides(cfg, e, n, n.proposalBlock.value);
    }
  }

  // ----- votes received ----------------------------------------------------------------------------

  /** A majority for something else, later than the lock and not from a round to come, releases it. */
  predicate LockReleased(n: Node, n': Node, r: int, polka: Option<BlockId>) {
    if n.lockedBlock.Some? && n.lockedRound < r <= n.round && n.lockedBlock != polka
    then NoLock(n') else SameLock(n, n')
  }

  /** A majority for a block in the current round makes the proposal the valid block, or is collected in its place. */
  predicate ValidFollows(e: Env, n: Node, n': Node, r: int, polka: Option<BlockId>) {
    if polka.None? || r != n.round || r <= n.validRound then SameValid(n, n') && SameProposal(n, n')
    else
      && n'.proposal == n.proposal
      && (if n.proposalBlock == polka then
            n'.validRound == r && n'.validBlock == polka && n'.validParts == n.proposalParts
            && n'.proposalBlock == polka
          else SameValid(n, n') && n'.proposalBlock.None?)
      && n'.proposalParts == if HasHeader(n.proposalParts, polka) then n.proposalParts
                             else Some(PartSet(polka, e.cfg.parts(polka.value), {}))
  }

  /** Lock and valid block after the prevotes of round `r` have changed. */
  ghost predicate PolkaSeen(e: Env, n: Node, n': Node, r: int) {
    && n' == n.(lockedRound := n'.lockedRound, lockedBlock := n'.lockedBlock, lockedParts := n'.lockedParts,
                validRound := n'.validRound, validBlock := n'.validBlock, validParts := n'.validParts,
                proposalBlock := n'.proposalBlock, proposalParts := n'.proposalParts)
    && match n.votes.Maj23(r, Prevote)
       case None => n' == n
       case Some(polka) => LockReleased(n, n', r, polka) && ValidFollows(e, n, n', r, polka)
  }

  lemma UnlockIsRelease(n: Node, r: int, polka: Option<BlockId>)
    ensures var m := n.UnlockOn(r, polka);
            && LockReleased(n, m, r, polka)
            && m == n.(lockedRound := m.lockedRound, lockedBlock := m.lockedBlock, lockedParts := m.lockedParts)
  {
  }

  lemma UpdateFollows(e: Env, n: Node, r: int, polka: Option<BlockId>)
    ensures var m := n.UpdateValid(e, r, polka);
            && ValidFollows(e, n, m, r, polka)
            && m == n.(validRound := m.validRound, validBlock := m.validBlock, validParts := m.validParts,
                       proposalBlock := m.proposalBlock, proposalParts := m.proposalParts)
  {
  }

  lemma PolkaIsSeen(e: Env, n: Node, r: int, polka: Option<BlockId>)
    requires n.votes.Maj23(r, Prevote) == Some(polka)
    ensures PolkaSeen(e, n, n.UnlockOn(r, polka).UpdateValid(e, r, polka), r)
  {
    hide HeightVoteSet.Maj23, Node.UnlockOn, Node.UpdateValid;
    UnlockIsRelease(n, r, polka);
    UpdateFollows(e, n.UnlockOn(r, polka), r, polka);
  }

  /**
   * A prevote that was added: lock and valid block follow the majority of its round, if there is one. Two thirds in a
   * later round skip to it; in the current round a majority is precommitted on, or the wait begins; and the majority
   * the proposal was waiting for is prevoted on.
   */
  lemma PrevoteHandled(cfg: Config, e: Env, n: Node, r: int) returns (p: Node)
    requires Inv(cfg, n) && ConfigOk(cfg) && e.cfg == cfg && n.halted.None?
    ensures PolkaSeen(e, n, p, r)
    ensures var n' := n.OnPrevote(e, r);
            var polka := n.votes.Maj23(r, Prevote);
            if n.round < r && n.votes.TwoThirdsAny(r, Prevote) then RoundEntered(e, p, n', r)
            else if n.round == r && PREVOTE <= n.step then
              if polka.Some? && (polka.value.None? || HasProposal(p)) then
                if n.step < PRECOMMIT then Precommitted(e, p, n') else n' == p
              else if n.votes.TwoThirdsAny(r, Prevote) && n.step < PREVOTE_WAIT then
                n' == p.(step := PREVOTE_WAIT, timeouts := p.timeouts + {Timeout(n.height, r, PREVOTE_WAIT)})
              else n' == p
            else if HasProposal(p) && p.proposal.value.polRound == r && 0 <= r && n.step < PREVOTE then
              CastsPrevote(e, p, n') && n' == p.(step := PREVOTE, log := n'.log)
            else n' == p
  {
    hide Inv, HeightVoteSet.Maj23, HeightVoteSet.TwoThirdsAny, Node.EnterNewRound;
    hide Node.EnterPrecommit, Node.EnterPrevote, Node.UnlockOn, Node.UpdateValid;
    hide Precommitted, RoundEntered, CastsPrevote;
    p := n;
    if n.votes.Maj23(r, Prevote).Some? {
      var polka := n.votes.Maj23(r, Prevote).value;
      p := n.UnlockOn(r, polka).UpdateValid(e, r, polka);
      PolkaIsSeen(e, n, r, polka);
      PolkaKeeps(cfg, e, n, r, polka);
    }
    if n.round < r && n.votes.TwoThirdsAny(r, Prevote) {
      NewRoundStep(cfg, e, p, r);
    } else if n.round == r && PREVOTE <= n.step {
      AfterPrecommit(cfg, e, p);
    } else {
      AfterPrevote(e, p);
    }
  }

  /**
   * The prevote that completes a majority in the current round, while the node is in its prevote step: for the valid
   * proposal at hand it is precommitted and locked, and for nil it is precommitted and no lock is left.
   */
  lemma PolkaPrecommits(cfg: Config, e: Env, n: Node, vote: Vote, peer: Peer, polka: Option<BlockId>)
    requires Inv(cfg, n) && ConfigOk(cfg) && e.cfg == cfg && n.halted.None? && PREVOTE <= n.step < PRECOMMIT
    requires vote in n.log && vote.kind == Prevote && vote.height == n.height && vote.round == n.round
    requires var r := n.votes.AddVote(vote, peer); r.added && r.votes.Maj23(n.round, Prevote) == Some(polka)
    requires polka.Some? ==> HasProposal(n) && n.proposalBlock == polka && cfg.valid(n.height, polka.value)
    ensures var n' := n.Handle(e, VoteMsg(vote, peer));
            && Casts(e, n, n', Precommit, polka) && n'.step == PRECOMMIT && n'.round == n.round
            && (if polka.Some? then n'.lockedBlock == polka && n'.lockedRound == n.round else NoLock(n'))
            && (polka.Some? && n.validRound < n.round ==> n'.validBlock == polka && n'.validRound == n.round)
  {
    hide Inv, HeightVoteSet.AddVote, Node.OnPrevote, Extends;
    var n1 := n.(votes := n.votes.AddVote(vote, peer).votes);
    StepIsInRound(cfg, n);
    AddVoteHereKeeps(cfg, e, n, vote, peer);
    if polka.Some? {
      StillThere(n, n1);
    }
    hide HeightVoteSet.Maj23;
    var p := PrevoteHandled(cfg, e, n1, n.round);
  }

  lemma StepIsInRound(cfg: Config, n: Node)
    requires Inv(cfg, n)
    ensures 0 <= n.round
  {
    hide HeightOk, FieldsOk, StepsOk, LogOk, LockOk, HaltOk;
  }

  lemma StillThere(n: Node, n': Node)
    requires HasProposal(n) && n' == n.(votes := n'.votes) && Extends(n.votes, n'.votes)
    ensures HasProposal(n')
  {
  }

  lemma AfterPrevote(e: Env, n: Node)
    requires n.halted.None?
    ensures var m := n.EnterPrevote(e, n.height, n.round);
            if n.step < PREVOTE then CastsPrevote(e, n, m) && m == n.(step := PREVOTE, log := m.log) else m == n
  {
    if n.step < PREVOTE {
      PrevoteStep(e, n);
    }
  }

  /** The wait for more precommits begins once in the current round. */
  predicate PrecommitWaits(n: Node, n': Node, r: int) {
    if r < n.round || (r == n.round && n.triggeredPrecommit) then n' == n
    else n' == n.(triggeredPrecommit := true, timeouts := n.timeouts + {Timeout(n.height, r, PRECOMMIT_WAIT)})
  }

  lemma WaitStep(e: Env, n: Node, r: int)
    requires n.halted.None? && n.votes.TwoThirdsAny(r, Precommit)
    ensures PrecommitWaits(n, n.EnterPrecommitWait(e, n.height, r), r)
  {
    hide HeightVoteSet.TwoThirdsAny;
  }

  /** The state a node reaches on the way to round `r`: that round, or the present one if it is not earlier. */
  ghost predicate Reached(e: Env, n: Node, n': Node, r: int) {
    if n.round < r || (n.round == r && n.step == NEW_HEIGHT) then RoundEntered(e, n, n', r) else n' == n
  }

  lemma ReachStep(cfg: Config, e: Env, n: Node, r: int)
    requires Inv(cfg, n) && e.cfg == cfg && n.halted.None?
    ensures Reached(e, n, n.EnterNewRound(e, n.height, r), r)
  {
    hide Inv, RoundEntered;
    if n.round < r || (n.round == r && n.step == NEW_HEIGHT) {
      NewRoundStep(cfg, e, n, r);
    } else {
      hide HeightVoteSet.SetRound;
    }
  }

  /**
   * A precommit that was added, without a majority for a block in its round: two thirds there make the node reach the
   * round and wait for more, and a nil majority makes it precommit on the way.
   */
  lemma PrecommitHandled(cfg: Config, e: Env, n: Node, r: int) returns (p: Node, m: Node)
    requires Inv(cfg, n) && ConfigOk(cfg) && e.cfg == cfg && n.halted.None? && 0 <= r
    requires n.votes.Maj23(r, Precommit).None? || n.votes.Maj23(r, Precommit) == Some(None)
    ensures var n' := n.OnPrecommit(e, r);
            if n.votes.Maj23(r, Precommit).Some? then
              && Reached(e, n, p, r)
              && (if r == p.round && p.step < PRECOMMIT then Precommitted(e, p, m) else m == p)
              && if m.halted.Some? then n' == m else PrecommitWaits(m, n', r)
            else if n.round <= r && n.votes.TwoThirdsAny(r, Precommit) then
              Reached(e, n, p, r) && PrecommitWaits(p, n', r)
            else n' == n
  {
    hide Inv, Precommitted, RoundEntered, HeightVoteSet.Maj23, HeightVoteSet.TwoThirdsAny, Extends, PrecommitWaits;
    hide Node.EnterNewRound, Node.EnterPrecommit, Node.EnterPrecommitWait;
    p := n.EnterNewRound(e, n.height, r);
    m := p;
    ReachStep(cfg, e, n, r);
    EnterNewRoundKeeps(cfg, e, n, n.height, r);
    if n.votes.Maj23(r, Precommit).Some? {
      MajorityIsAny(cfg, n, r);
      m := p.EnterPrecommit(e, n.height, r);
      EnterPrecommitKeeps(cfg, e, p, n.height, r);
      PrecommitOn(cfg, e, p, r);
    }
    if n.votes.TwoThirdsAny(r, Precommit) {
      StillAny(n, p, r);
      StillAny(p, m, r);
      if m.halted.None? {
        WaitStep(e, m, r);
      } else {
        HaltedWaits(e, m, n.height, r);
      }
    }
  }

  lemma StillAny(n: Node, n': Node, r: int)
    requires Extends(n.votes, n'.votes) && n.votes.TwoThirdsAny(r, Precommit)
    ensures n'.votes.TwoThirdsAny(r, Precommit)
  {
  }

  lemma MajorityIsAny(cfg: Config, n: Node, r: int)
    requires Inv(cfg, n) && n.votes.Maj23(r, Precommit).Some?
    ensures n.votes.TwoThirdsAny(r, Precommit)
  {
    hide HeightOk, FieldsOk, StepsOk, LogOk, LockOk, HaltOk;
    RecordedMajorityIsAny(n.votes, n.log, r, Precommit);
  }

  lemma HaltedWaits(e: Env, n: Node, h: nat, r: int)
    requires n.halted.Some?
    ensures n.EnterPrecommitWait(e, h, r) == n
  {
  }

  lemma PrecommitOn(cfg: Config, e: Env, n: Node, r: int)
    requires Inv(cfg, n) && e.cfg == cfg && n.halted.None? && r <= n.round
    ensures var m := n.EnterPrecommit(e, n.height, r);
            if r == n.round && n.step < PRECOMMIT then Precommitted(e, n, m) else m == n
  {
    hide Inv, Precommitted;
    if r == n.round {
      AfterPrecommit(cfg, e, n);
    }
  }

  // ----- the vote itself ---------------------------------------------------------------------------

  predicate SameVotes(n: Node, n': Node) {
    n'.height == n.height && n'.votes == n.votes
  }

  lemma PolkaKeepsVotes(e: Env, n: Node, r: int, polka: Option<BlockId>)
    ensures SameVotes(n, n.PrecommitPolka(e, r, polka))
  {
    hide Node.SignAddVote, Config.NewPartSet, Casts;
    if polka.None? {
      SignCasts(e, if n.lockedBlock.Some? then n.Unlock() else n, Precommit, None);
    } else if HashesTo(n.lockedBlock, polka) {
      SignCasts(e, n.(lockedRound := r), Precommit, polka);
    } else if HashesTo(n.proposalBlock, polka) {
      var locked := n.(lockedRound := r, lockedBlock := n.proposalBlock, lockedParts := n.proposalParts);
      SignCasts(e, locked, Precommit, polka);
    } else {
      SignCasts(e, n.Unlock().FetchBlock(e, polka), Precommit, None);
    }
  }

  lemma PrecommitKeepsVotes(e: Env, n: Node, h: nat, r: int)
    ensures SameVotes(n, n.EnterPrecommit(e, h, r))
  {
    hide HeightVoteSet.Maj23, HeightVoteSet.POLRound, Node.PrecommitPolka;
    if n.votes.Maj23(r, Prevote).Some? {
      PolkaKeepsVotes(e, n, r, n.votes.Maj23(r, Prevote).value);
    }
  }

  lemma PrevoteKeepsVotes(e: Env, n: Node, h: nat, r: int)
    ensures SameVotes(n, n.EnterPrevote(e, h, r)) && SameVotes(n, n.EnterPrevoteWait(e, h, r))
  {
    hide Node.PrevoteFor, HeightVoteSet.TwoThirdsAny;
  }

  lemma UpdateKeepsVotes(e: Env, n: Node, last: nat)
    requires last == n.height
    ensures var n' := n.UpdateToState(e, last); n'.height == n.height ==> n'.votes == n.votes
  {
    hide HeightVoteSet.Maj23, NewHeightVoteSet;
  }

  lemma FinalizeKeepsVotes(e: Env, n: Node, h: nat)
    ensures var n' := n.FinalizeCommit(e, h); n'.height == n.height ==> n'.votes == n.votes
  {
    hide HeightVoteSet.Maj23, Node.UpdateToState;
    match n.votes.Maj23(n.commitRound, Precommit)
    case Some(Some(b)) =>
      if h == n.height {
        UpdateKeepsVotes(e, n.(decided := n.decided[h := b]), h);
      }
    case _ =>
  }

  lemma CommitKeepsVotes(e: Env, n: Node, h: nat, r: int)
    ensures var n' := n.EnterCommit(e, h, r); n'.height == n.height ==> n'.votes == n.votes
  {
    hide HeightVoteSet.Maj23, Node.FinalizeCommit, Config.NewPartSet;
    if n.votes.Maj23(r, Precommit).Some? {
      var c := n.CommitBlock(e, n.votes.Maj23(r, Precommit).value).MoveTo(n.round, COMMIT).(commitRound := r);
      FinalizeKeepsVotes(e, c, h);
    }
  }

  lemma RoundKeepsSlots(e: Env, n: Node, h: nat, r: int)
    ensures var n' := n.EnterNewRound(e, h, r); n'.height == n.height && SameSlots(n.votes, n'.votes)
  {
    hide HeightVoteSet.SetRound, Node.EnterPropose;
    NewRoundLeavesBlock(e, n, h, r);
    if n.votes.SetRound(r + 1).Some? {
      SetRoundTracks(n.votes, r + 1);
      var n0 := if r != 0 then n.ClearProposal() else n;
      var n1 := n0.MoveTo(r, NEW_ROUND).(votes := n.votes.SetRound(r + 1).value, triggeredPrecommit := false);
      ProposeKeepsHeight(e, n1, h, r);
    }
  }

  lemma ProposeKeepsHeight(e: Env, n: Node, h: nat, r: int)
    ensures n.EnterPropose(e, h, r).height == n.height
  {
    hide HeightVoteSet.Maj23;
  }

  lemma PrecommitReactionKeepsSlots(e: Env, n: Node, r: int)
    ensures var n' := n.OnPrecommit(e, r); n'.height == n.height ==> SameSlots(n.votes, n'.votes)
  {
    hide HeightVoteSet.Maj23, HeightVoteSet.TwoThirdsAny, HeightVoteSet.HasAll, SameSlots;
    hide Node.EnterNewRound, Node.EnterPrecommit, Node.EnterCommit;
    var p := n.EnterNewRound(e, n.height, r);
    RoundKeepsSlots(e, n, n.height, r);
    var m := p.EnterPrecommit(e, n.height, r);
    PrecommitKeepsVotes(e, p, n.height, r);
    var c := m.EnterCommit(e, n.height, r);
    CommitKeepsVotes(e, m, n.height, r);
    RoundKeepsSlots(e, c, c.height, 0);
    SlotsCompose(n.votes, c.votes, c.EnterNewRound(e, c.height, 0).votes);
  }

  lemma SlotsCompose(a: HeightVoteSet, b: HeightVoteSet, c: HeightVoteSet)
    ensures SameSlots(a, b) && SameSlots(b, c) ==> SameSlots(a, c)
    ensures SameSlots(a, a)
  {
  }

  lemma PrevoteReactionKeepsSlots(e: Env, n: Node, r: int)
    ensures var n' := n.OnPrevote(e, r); n'.height == n.height && SameSlots(n.votes, n'.votes)
  {
    hide HeightVoteSet.Maj23, HeightVoteSet.TwoThirdsAny, SameSlots, HasProposal, Node.IsProposalComplete;
    hide Node.EnterNewRound, Node.EnterPrecommit, Node.EnterPrevote;
    hide Node.EnterPrevoteWait, Node.UnlockOn, Node.UpdateValid;
    SlotsCompose(n.votes, n.votes, n.votes);
    var p := n;
    if n.votes.Maj23(r, Prevote).Some? {
      var polka := n.votes.Maj23(r, Prevote).value;
      p := n.UnlockOn(r, polka).UpdateValid(e, r, polka);
      UnlockIsRelease(n, r, polka);
      UpdateFollows(e, n.UnlockOn(r, polka), r, polka);
    }
    RoundKeepsSlots(e, p, n.height, r);
    PrecommitKeepsVotes(e, p, n.height, r);
    PrevoteKeepsVotes(e, p, n.height, r);
    PrevoteKeepsVotes(e, p, n.height, p.round);
  }

  /**
   * A vote of the current height that reaches a node is in the vote sets afterwards, in its own slot and in no other,
   * whatever else it brings about short of deciding the height.
   */
  lemma VoteIsRecorded(e: Env, n: Node, vote: Vote, peer: Peer)
    requires n.halted.None? && vote.height == n.height
    ensures var n' := n.Handle(e, VoteMsg(vote, peer));
            n'.height == n.height ==> SameSlots(n.votes.AddVote(vote, peer).votes, n'.votes)
  {
    hide HeightVoteSet.AddVote, Node.OnPrevote, Node.OnPrecommit, SameSlots;
    var h := n.votes.AddVote(vote, peer).votes;
    var n1 := n.(votes := h);
    SlotsCompose(h, h, h);
    PrevoteReactionKeepsSlots(e, n1, vote.round);
    PrecommitReactionKeepsSlots(e, n1, vote.round);
  }

  /** In particular the first vote of a validator for a slot counts, unless the peer may not open its round. */
  lemma FirstVoteOfNodeCounts(cfg: Config, e: Env, n: Node, vote: Vote, peer: Peer)
    requires Inv(cfg, n) && n.halted.None? && vote.height == n.height && n.votes.Accessible(vote.round, peer)
    requires vote.validator in cfg.vals(n.height).powers
    requires vote.validator !in n.votes.Slot(vote.round, vote.kind).votes
    ensures var n' := n.Handle(e, VoteMsg(vote, peer)); n'.height == n.height ==> CountedIn(n.votes, n'.votes, vote)
  {
    hide Inv, HeightVoteSet.Valid, SameSlots, HeightVoteSet.AddVote, Node.Handle;
    VotesAreValid(cfg, n);
    SameVals(cfg, n);
    HeightFirstVoteCounts(n.votes, vote, peer, n.log);
    VoteIsRecorded(e, n, vote, peer);
    CountedSame(n.votes, n.votes.AddVote(vote, peer).votes, n.Handle(e, VoteMsg(vote, peer)).votes, vote);
  }

  lemma SameVals(cfg: Config, n: Node)
    requires Inv(cfg, n)
    ensures n.votes.vals == cfg.vals(n.height) && n.votes.height == n.height
  {
    hide HeightOk, FieldsOk, StepsOk, LogOk, LockOk, HaltOk;
  }

  lemma CountedSame(h: HeightVoteSet, h1: HeightVoteSet, h2: HeightVoteSet, vote: Vote)
    requires CountedIn(h, h1, vote)
    ensures SameSlots(h1, h2) ==> CountedIn(h, h2, vote)
  {
  }

  // ----- the other messages ------------------------------------------------------------------------

  /** A late precommit of the previous height goes to the last commit; a full one may begin round zero at once. */
  lemma LateVoteIsRecorded(cfg: Config, e: Env, n: Node, vote: Vote, peer: Peer)
    requires Inv(cfg, n) && e.cfg == cfg && n.halted.None? && vote.kind == Precommit && vote.height + 1 == n.height
    ensures var n' := n.Handle(e, VoteMsg(vote, peer));
            if n.step != NEW_HEIGHT then n' == n
            else if n.lastCommit.None? then n' == n.(halted := Some(NilLastCommit))
            else
              var r := n.lastCommit.value.AddVote(vote);
              && n'.lastCommit == Some(r.votes)
              && if cfg.skipTimeoutCommit && r.added && r.votes.sum == r.votes.vals.total
                 then n'.round == 0 && NEW_ROUND <= n'.step else n' == n.(lastCommit := Some(r.votes))
  {
    hide Inv, VoteSet.AddVote, Node.EnterNewRound;
    if n.step == NEW_HEIGHT && n.lastCommit.Some? {
      var n1 := n.(lastCommit := Some(n.lastCommit.value.AddVote(vote).votes));
      FromNewHeight(cfg, e, n, n1);
    }
  }

  lemma FromNewHeight(cfg: Config, e: Env, n: Node, n1: Node)
    requires Inv(cfg, n) && n.halted.None? && n.step == NEW_HEIGHT && n1 == n.(lastCommit := n1.lastCommit)
    ensures var n' := n1.EnterNewRound(e, n.height, 0);
            n'.round == 0 && NEW_ROUND <= n'.step && n'.lastCommit == n1.lastCommit
  {
    hide Inv, HeightVoteSet.SetRound, Node.BeginRound;
    NewHeightIsRoundZero(cfg, n);
    CanTrack(cfg, n, 1);
    EntersOpened(e, n1, 0);
    BeginStep(e, Opened(n1, 0));
  }

  /** A peer's claim of a majority goes to the slot it names, if that is tracked at this height. */
  lemma ClaimIsRecorded(e: Env, n: Node, h: nat, r: int, kind: VoteType, peer: Peer, b: Option<BlockId>)
    requires n.halted.None?
    ensures var n' := n.Handle(e, PeerMaj23Msg(h, r, kind, peer, b));
            && n' == n.(votes := n'.votes)
            && (h == n.height && r in n.votes.rounds ==>
                  n'.votes.Slot(r, kind) == n.votes.Slot(r, kind).SetPeerMaj23(peer, b))
            && forall q, k :: h != n.height || q != r || k != kind ==> n'.votes.Slot(q, k) == n.votes.Slot(q, k)
  {
    hide VoteSet.SetPeerMaj23;
  }

  /** Transactions end the wait of the first round: with its timeout still to come, by a timeout of its own. */
  lemma TransactionsEndTheWait(e: Env, n: Node)
    requires n.halted.None?
    ensures var n' := n.Handle(e, TxsAvailable);
            if n.round == 0 && n.step == NEW_HEIGHT && !e.needProof(n.height) then
              n' == n.(timeouts := n.timeouts + {Timeout(n.height, 0, NEW_ROUND)})
            else if n.round == 0 && n.step == NEW_ROUND then
              Proposed(e, n, n') && n' == n.(step := n'.step, log := n'.log, timeouts := n'.timeouts)
            else n' == n
  {
    hide Node.EnterPropose, Proposed;
    if n.step == NEW_ROUND {
      ProposeStep(e, n);
    }
  }
}
