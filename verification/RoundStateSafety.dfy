/** Every transition of a node preserves the invariant; hence it holds over every run. */
module RoundStateSafety {
  import opened Options
  import opened VotingPower
  import opened VoteSets
  import opened RoundStates
  import opened RoundStateInvariant

  /** The outcome of a transition: the invariant, progress, and no recorded majority lost within a height. */
  ghost predicate Kept(cfg: Config, n: Node, n': Node) {
    Inv(cfg, n') && Progress(n, n') && (n'.height == n.height ==> Extends(n.votes, n'.votes))
  }

  lemma KeptTrans(cfg: Config, n: Node, n': Node, n'': Node)
    requires Kept(cfg, n, n') && Kept(cfg, n', n'') && n.height <= n'.height
    ensures Kept(cfg, n, n'')
  {
    hide Inv;
  }

  // ----- propose and prevote ------------------------------------------------------------------

  lemma PrevoteJustified(cfg: Config, e: Env, n: Node)
    requires Inv(cfg, n) && e.cfg == cfg
    ensures Justified(cfg, n.me, n.log, Vote(n.me, n.height, n.round, Prevote, n.PrevoteFor(e)))
  {
    hide HeightOk, VotesOk, StepsOk, LogOk;
    var v := Vote(n.me, n.height, n.round, Prevote, n.PrevoteFor(e));
    forall p <- n.log | IsLockVote(n.me, p, v.height) && p.round < v.round && p.block != v.block
      ensures Released(cfg, n.log, v.height, p.block, p.round, v.round)
    {
      assert Held(cfg, n, p);
    }
  }

  lemma EnterPrevoteKeeps(cfg: Config, e: Env, n: Node, h: nat, r: int)
    requires Inv(cfg, n) && e.cfg == cfg && (h == n.height ==> r <= n.round)
    ensures var n' := n.EnterPrevote(e, h, r);
            Kept(cfg, n, n') && n'.halted == n.halted && n' == n.(step := n'.step, log := n'.log)
  {
    hide Inv;
    if n.EnterPrevote(e, h, r) != n {
      PrevoteJustified(cfg, e, n);
      CastKeeps(cfg, e, n, Prevote, n.PrevoteFor(e));
    }
  }

  lemma EnterProposeKeeps(cfg: Config, e: Env, n: Node, h: nat, r: int)
    requires Inv(cfg, n) && e.cfg == cfg && (h == n.height ==> r <= n.round)
    ensures var n' := n.EnterPropose(e, h, r);
            Kept(cfg, n, n') && n'.halted == n.halted
            && n' == n.(step := n'.step, log := n'.log, timeouts := n'.timeouts)
  {
    hide HeightOk, VotesOk, StepsOk, LogOk, LockOk;
    var n1 := n.Schedule(Timeout(h, r, PROPOSE)).MoveTo(r, PROPOSE);
    if n.EnterPropose(e, h, r) != n {
      StepBounds(cfg, n);
      VotesMove(cfg, n, n1);
      MoveKeeps(cfg, n, n1);
      EnterPrevoteKeeps(cfg, e, n1, h, r);
      KeptTrans(cfg, n, n1, n1.EnterPrevote(e, h, r));
    }
  }

  lemma NewRoundVotes(cfg: Config, n: Node, n1: Node)
    requires VotesOk(cfg, n) && n.round <= n1.round && n1.height == n.height && n1.log == n.log && n1.step == NEW_ROUND
    requires n.votes.SetRound(n1.round + 1).Some? ==> n1.votes == n.votes.SetRound(n1.round + 1).value
    ensures n.votes.SetRound(n1.round + 1).Some? && VotesOk(cfg, n1) && Extends(n.votes, n1.votes)
  {
    SetRoundKeeps(n.votes, n1.round + 1, n.log);
  }

  lemma EnterNewRoundKeeps(cfg: Config, e: Env, n: Node, h: nat, r: int)
    requires Inv(cfg, n) && e.cfg == cfg
    ensures var n' := n.EnterNewRound(e, h, r);
            && Kept(cfg, n, n') && n'.halted == n.halted && n'.height == n.height
            && (n.halted.None? && h == n.height ==> r <= n'.round)
  {
    hide HeightOk, VotesOk, FieldsOk, StepsOk, LogOk, LockOk, HaltOk, HeightVoteSet.SetRound;
    if n.EnterNewRound(e, h, r) != n {
      var n0 := if r != 0 then n.ClearProposal() else n;
      var vs := n.votes.SetRound(r + 1);
      var n1 := n0.MoveTo(r, NEW_ROUND).(votes := if vs.Some? then vs.value else n.votes, triggeredPrecommit := false);
      NewRoundVotes(cfg, n, n1);
      NewRoundMoves(cfg, n, n1, e, h, r);
    }
  }

  lemma NewRoundMoves(cfg: Config, n: Node, n1: Node, e: Env, h: nat, r: int)
    requires Inv(cfg, n) && e.cfg == cfg && n.halted.None? && n.height == h && n.round <= r && VotesOk(cfg, n1)
    requires n.round == r ==> n.step == NEW_HEIGHT
    requires var n0 := if r != 0 then n.ClearProposal() else n;
             n1 == n0.MoveTo(r, NEW_ROUND).(votes := n1.votes, triggeredPrecommit := false)
    requires Extends(n.votes, n1.votes)
    ensures Kept(cfg, n, n1.EnterPropose(e, h, r)) && Kept(cfg, n, n1)
    ensures Kept(cfg, n, n1.Schedule(Timeout(h, r, NEW_ROUND)))
    ensures var n' := n1.EnterPropose(e, h, r); n' == n1.(step := n'.step, log := n'.log, timeouts := n'.timeouts)
  {
    hide HeightOk, VotesOk, StepsOk, LogOk, LockOk;
    StepBounds(cfg, n);
    MoveKeeps(cfg, n, n1);
    var n2 := n1.Schedule(Timeout(h, r, NEW_ROUND));
    VotesMove(cfg, n1, n2) by { StepBounds(cfg, n1); }
    MoveKeeps(cfg, n1, n2);
    EnterProposeKeeps(cfg, e, n1, h, r);
    KeptTrans(cfg, n, n1, n1.EnterPropose(e, h, r));
  }

  lemma EnterPrevoteWaitKeeps(cfg: Config, e: Env, n: Node, h: nat, r: int)
    requires Inv(cfg, n) && e.cfg == cfg && (h == n.height ==> r <= n.round && n.votes.TwoThirdsAny(r, Prevote))
    ensures Kept(cfg, n, n.EnterPrevoteWait(e, h, r))
  {
    hide HeightOk, VotesOk, StepsOk, LogOk, LockOk;
    var n' := n.EnterPrevoteWait(e, h, r);
    if n' != n {
      StepBounds(cfg, n);
      VotesMove(cfg, n, n');
      MoveKeeps(cfg, n, n');
    }
  }

  lemma EnterPrecommitWaitKeeps(cfg: Config, e: Env, n: Node, h: nat, r: int)
    requires Inv(cfg, n) && e.cfg == cfg && (h == n.height ==> r <= n.round && n.votes.TwoThirdsAny(r, Precommit))
    ensures Kept(cfg, n, n.EnterPrecommitWait(e, h, r))
  {
    hide HeightOk, VotesOk, StepsOk, LogOk, LockOk;
    var n' := n.EnterPrecommitWait(e, h, r);
    if n' != n {
      StepBounds(cfg, n);
      VotesMove(cfg, n, n');
      MoveKeeps(cfg, n, n');
    }
  }

  // ----- precommit ----------------------------------------------------------------------------

  /** A precommit for nil needs no justification; one for a block rests on the majority of its round. */
  lemma PrecommitJustified(cfg: Config, n: Node, b: Option<BlockId>)
    requires VotesOk(cfg, n) && (b.Some? ==> n.votes.Maj23(n.round, Prevote) == Some(b) && cfg.valid(n.height, b.value))
    ensures Justified(cfg, n.me, n.log, Vote(n.me, n.height, n.round, Precommit, b))
  {
    if b.Some? {
      RecordedMajorityIsCast(n.votes, n.log, n.round, Prevote);
    }
  }

  /** Casts the precommit after `n1` settled the lock. */
  lemma PrecommitKeeps(cfg: Config, e: Env, n: Node, n1: Node, b: Option<BlockId>)
    requires Inv(cfg, n1) && n1.halted.None? && n1.step < PRECOMMIT && Kept(cfg, n, n1) && n1.height == n.height
    requires b.Some? ==> n1.votes.Maj23(n1.round, Prevote) == Some(b) && cfg.valid(n1.height, b.value)
    requires b.Some? ==> n1.lockedBlock == b && n1.lockedRound == n1.round
    ensures Kept(cfg, n, n1.SignAddVote(e, Precommit, b).MoveTo(n1.round, PRECOMMIT))
  {
    hide HeightOk, VotesOk, FieldsOk, StepsOk, LogOk, LockOk, HaltOk;
    PrecommitJustified(cfg, n1, b);
    CastKeeps(cfg, e, n1, Precommit, b);
    KeptTrans(cfg, n, n1, n1.SignAddVote(e, Precommit, b).MoveTo(n1.round, PRECOMMIT));
  }

  lemma UnlockKeeps(cfg: Config, n: Node, r: int, x: Option<BlockId>)
    requires Inv(cfg, n) && n.halted.None? && n.lockedBlock.Some? && n.lockedBlock != x
    requires n.votes.Maj23(r, Prevote) == Some(x) && n.lockedRound <= r <= n.round
    ensures Kept(cfg, n, n.Unlock())
  {
    hide HeightOk, VotesOk, StepsOk, LogOk, LockOk;
    LockKeeps(cfg, n, n.Unlock(), r, x);
  }

  lemma FetchBlockKeeps(cfg: Config, e: Env, n: Node, id: Option<BlockId>)
    requires Inv(cfg, n) && n.halted.None?
    ensures Kept(cfg, n, n.FetchBlock(e, id))
  {
    hide HeightOk, VotesOk, StepsOk, LogOk, LockOk;
    var n' := n.FetchBlock(e, id);
    StepBounds(cfg, n);
    VotesMove(cfg, n, n');
    MoveKeeps(cfg, n, n');
  }

  lemma PrecommitPolkaKeeps(cfg: Config, e: Env, n: Node, polka: Option<BlockId>)
    requires Inv(cfg, n) && e.cfg == cfg && n.halted.None? && n.step < PRECOMMIT
    requires n.votes.Maj23(n.round, Prevote) == Some(polka)
    ensures Kept(cfg, n, n.PrecommitPolka(e, n.round, polka)) && n.PrecommitPolka(e, n.round, polka).height == n.height
  {
    hide HeightOk, VotesOk, StepsOk, LogOk, LockOk;
    StepBounds(cfg, n);
    if HashesTo(n.lockedBlock, polka) {
      var n1 := n.(lockedRound := n.round);
      LockKeeps(cfg, n, n1, n.round, polka);
      PrecommitKeeps(cfg, e, n, n1, polka);
    } else if HashesTo(n.proposalBlock, polka) && cfg.valid(n.height, polka.value) {
      var n1 := n.(lockedRound := n.round, lockedBlock := n.proposalBlock, lockedParts := n.proposalParts);
      LockKeeps(cfg, n, n1, n.round, polka);
      PrecommitKeeps(cfg, e, n, n1, polka);
    } else if HashesTo(n.proposalBlock, polka) {
      HaltKeeps(cfg, n, polka.value, n.round, Prevote);
    } else {
      ReleasePolkaKeeps(cfg, e, n, polka);
    }
  }

  lemma ReleasePolkaKeeps(cfg: Config, e: Env, n: Node, polka: Option<BlockId>)
    requires Inv(cfg, n) && e.cfg == cfg && n.halted.None? && n.step < PRECOMMIT
    requires n.votes.Maj23(n.round, Prevote) == Some(polka) && !HashesTo(n.lockedBlock, polka)
    requires polka.Some? ==> !HashesTo(n.proposalBlock, polka)
    ensures Kept(cfg, n, n.PrecommitPolka(e, n.round, polka)) && n.PrecommitPolka(e, n.round, polka).height == n.height
  {
    hide HeightOk, VotesOk, StepsOk, LogOk, LockOk;
    var n1 := n.Unlock();
    if n.lockedBlock.Some? {
      UnlockKeeps(cfg, n, n.round, polka);
    } else {
      assert n1 == n;
    }
    if polka.None? {
      PrecommitKeeps(cfg, e, n, n1, None);
    } else {
      FetchBlockKeeps(cfg, e, n1, polka);
      KeptTrans(cfg, n, n1, n1.FetchBlock(e, polka));
      PrecommitKeeps(cfg, e, n, n1.FetchBlock(e, polka), None);
    }
  }

  /** Halting on an invalid block that has a recorded majority. */
  lemma HaltKeeps(cfg: Config, n: Node, b: BlockId, r: int, kind: VoteType)
    requires Inv(cfg, n) && !cfg.valid(n.height, b) && n.votes.Maj23(r, kind) == Some(Some(b))
    ensures Kept(cfg, n, n.Halt(InvalidBlock(b)))
  {
    hide StepsOk, LogOk, LockOk, VotesOk, HeightOk;
    var n' := n.Halt(InvalidBlock(b));
    StepBounds(cfg, n);
    HeightMoves(cfg, n, n');
    VotesMove(cfg, n, n');
    StepsMove(n, n');
    LockMoves(cfg, n, n');
  }

  lemma POLIsCurrent(cfg: Config, n: Node)
    requires VotesOk(cfg, n) && n.votes.Maj23(n.round, Prevote).Some?
    ensures n.round <= n.votes.POLRound(n.votes.round)
  {
  }

  lemma EnterPrecommitKeeps(cfg: Config, e: Env, n: Node, h: nat, r: int)
    requires Inv(cfg, n) && e.cfg == cfg && (h == n.height ==> r <= n.round)
    ensures Kept(cfg, n, n.EnterPrecommit(e, h, r)) && n.EnterPrecommit(e, h, r).height == n.height
  {
    hide HeightOk, VotesOk, FieldsOk, StepsOk, LogOk, LockOk, HaltOk, Node.PrecommitPolka, HeightVoteSet.Maj23;
    hide HeightVoteSet.POLRound;
    if n.EnterPrecommit(e, h, r) != n {
      match n.votes.Maj23(r, Prevote)
      case None =>
        PrecommitKeeps(cfg, e, n, n, None);
      case Some(polka) =>
        POLIsCurrent(cfg, n);
        PrecommitPolkaKeeps(cfg, e, n, polka);
    }
  }

  // ----- commit -------------------------------------------------------------------------------

  /** Entering the next height forgets the votes and locks of the finished one. */
  lemma NewHeightKeeps(cfg: Config, e: Env, n: Node, n': Node, b: BlockId)
    requires Inv(cfg, n) && ConfigOk(cfg) && e.cfg == cfg && 0 <= n.commitRound
    requires n.votes.Maj23(n.commitRound, Precommit) == Some(Some(b))
    requires n' == n.(decided := n.decided[n.height := b])
                    .NewHeight(e, n.height + 1, Some(n.votes.rounds[n.commitRound].precommits))
                    .(stateHeight := n.height, halted := None)
                    .Schedule(Timeout(n.height + 1, 0, NEW_HEIGHT))
    ensures Kept(cfg, n, n')
  {
    hide HeightOk, VotesOk, StepsOk, LogOk, LockOk, HaltOk;
    assert HeightOk(cfg, n') by { NextHeight(cfg, n, n', b); }
    assert VotesOk(cfg, n') by { NextVotes(cfg, n'); }
    assert StepsOk(n') && LockOk(cfg, n') by { NextSteps(cfg, n, n'); }
    assert HaltOk(cfg, n') by { NotHalted(cfg, n'); }
  }

  lemma NotHalted(cfg: Config, n: Node)
    requires n.halted.None?
    ensures HaltOk(cfg, n)
  {
  }

  lemma NextHeight(cfg: Config, n: Node, n': Node, b: BlockId)
    requires HeightOk(cfg, n) && VotesOk(cfg, n) && n.votes.Maj23(n.commitRound, Precommit) == Some(Some(b))
    requires n'.height == n.height + 1 && n'.stateHeight == n.height && n'.decided == n.decided[n.height := b]
    requires n'.log == n.log
    requires n'.lastCommit == Some(n.votes.rounds[n.commitRound].precommits)
    ensures HeightOk(cfg, n')
  {
    hide VotesOk, LastCommitOk;
    assert Decision(cfg, n.log, n.height, b) && LastCommitOk(cfg, n') by { NextLastCommit(cfg, n, n', b); }
  }

  lemma NextLastCommit(cfg: Config, n: Node, n': Node, b: BlockId)
    requires VotesOk(cfg, n) && n.votes.Maj23(n.commitRound, Precommit) == Some(Some(b))
    requires cfg.initialHeight <= n.height
    requires n'.height == n.height + 1 && n'.decided == n.decided[n.height := b] && n'.log == n.log
    requires n'.lastCommit == Some(n.votes.rounds[n.commitRound].precommits)
    ensures Decision(cfg, n.log, n.height, b) && LastCommitOk(cfg, n')
  {
    RecordedMajorityIsCast(n.votes, n.log, n.commitRound, Precommit);
  }

  lemma NextVotes(cfg: Config, n': Node)
    requires ConfigOk(cfg) && n'.votes == NewHeightVoteSet(n'.height, cfg.vals(n'.height)) && n'.round == 0
    requires n'.step == NEW_HEIGHT
    ensures VotesOk(cfg, n')
  {
    NewRoundOk(n'.votes, 0, n'.log);
  }

  lemma NextSteps(cfg: Config, n: Node, n': Node)
    requires StepsOk(n) && n'.height == n.height + 1 && n'.me == n.me && n'.log == n.log
    ensures StepsOk(n') && LockOk(cfg, n')
  {
  }

  lemma StateHeightIs(cfg: Config, n: Node)
    requires HeightOk(cfg, n) && ConfigOk(cfg)
    ensures n.stateHeight < n.height
    ensures (n.stateHeight > 0 ==> n.stateHeight + 1 == n.height && n.height != cfg.initialHeight)
  {
  }

  lemma FinalizeOutcome(cfg: Config, e: Env, n: Node, b: BlockId)
    requires HeightOk(cfg, n) && ConfigOk(cfg) && e.cfg == cfg && FieldsOk(cfg, n)
    requires n.halted.None? && n.step == COMMIT && CommittedBlock(n) == Some(b) && n.proposalBlock == Some(b)
    ensures n.FinalizeCommit(e, n.height) ==
            if cfg.valid(n.height, b) then
              n.(decided := n.decided[n.height := b])
               .NewHeight(e, n.height + 1, Some(n.votes.rounds[n.commitRound].precommits))
               .(stateHeight := n.height, halted := None)
               .Schedule(Timeout(n.height + 1, 0, NEW_HEIGHT))
            else n.Halt(InvalidBlock(b))
  {
    hide HeightOk, NewHeightVoteSet;
    StateHeightIs(cfg, n);
  }

  lemma FinalizeKeeps(cfg: Config, e: Env, n: Node, h: nat)
    requires Inv(cfg, n) && ConfigOk(cfg) && e.cfg == cfg && HashesTo(n.proposalBlock, CommittedBlock(n))
    ensures var n' := n.FinalizeCommit(e, h); Kept(cfg, n, n') && n.height <= n'.height
  {
    hide HeightOk, VotesOk, StepsOk, LogOk, LockOk, HaltOk;
    if n.FinalizeCommit(e, h) != n {
      var b := n.proposalBlock.value;
      FinalizeOutcome(cfg, e, n, b);
      if cfg.valid(n.height, b) {
        NewHeightKeeps(cfg, e, n, n.FinalizeCommit(e, h), b);
      } else {
        HaltKeeps(cfg, n, b, n.commitRound, Precommit);
      }
    }
  }

  lemma TryFinalizeKeeps(cfg: Config, e: Env, n: Node, h: nat)
    requires Inv(cfg, n) && ConfigOk(cfg) && e.cfg == cfg && h == n.height
    ensures var n' := n.TryFinalizeCommit(e, h); Kept(cfg, n, n') && n.height <= n'.height
  {
    hide Inv;
    if HashesTo(n.proposalBlock, CommittedBlock(n)) {
      FinalizeKeeps(cfg, e, n, h);
    }
  }

  lemma EnterCommitKeeps(cfg: Config, e: Env, n: Node, h: nat, r: int)
    requires Inv(cfg, n) && ConfigOk(cfg) && e.cfg == cfg && 0 <= r
    requires h == n.height ==> n.votes.Maj23(r, Precommit).Some? && n.votes.Maj23(r, Precommit).value.Some?
    ensures var n' := n.EnterCommit(e, h, r); Kept(cfg, n, n') && n.height <= n'.height
  {
    hide HeightOk, VotesOk, StepsOk, LogOk, LockOk, HaltOk;
    if n.EnterCommit(e, h, r) != n {
      var id := n.votes.Maj23(r, Precommit).value;
      var n1 := if HashesTo(n.lockedBlock, id) then n.(proposalBlock := n.lockedBlock, proposalParts := n.lockedParts)
                else n;
      ProposalKeeps(cfg, n, n1);
      CommitBlockKeeps(cfg, e, n, n1, r, id);
    }
  }

  lemma CommitBlockKeeps(cfg: Config, e: Env, n: Node, n1: Node, r: int, id: Option<BlockId>)
    requires Kept(cfg, n, n1) && ConfigOk(cfg) && e.cfg == cfg && 0 <= r && n1.halted.None? && n1.height == n.height
    requires id.Some? && n1.votes.Maj23(r, Precommit) == Some(id)
    ensures var n2 := if HashesTo(n1.proposalBlock, id) then n1 else n1.FetchBlock(e, id);
            var n3 := n2.MoveTo(n1.round, COMMIT).(commitRound := r).TryFinalizeCommit(e, n.height);
            Kept(cfg, n, n3) && n.height <= n3.height
  {
    hide Inv;
    var n2 := if HashesTo(n1.proposalBlock, id) then n1 else n1.FetchBlock(e, id);
    FetchBlockKeeps(cfg, e, n1, id);
    CommitStepKeeps(cfg, n2, r);
    var n3 := n2.MoveTo(n1.round, COMMIT).(commitRound := r);
    TryFinalizeKeeps(cfg, e, n3, n.height);
    KeptTrans(cfg, n1, n2, n3);
    KeptTrans(cfg, n, n1, n3);
    KeptTrans(cfg, n, n3, n3.TryFinalizeCommit(e, n.height));
  }

  /** Replacing the proposal fields by consistent ones. */
  lemma ProposalKeeps(cfg: Config, n: Node, n': Node)
    requires Inv(cfg, n) && n.halted.None? && ProposalOk(n')
    requires n' == n.(proposal := n'.proposal, proposalBlock := n'.proposalBlock, proposalParts := n'.proposalParts)
    ensures Kept(cfg, n, n')
  {
    hide HeightOk, VotesOk, StepsOk, LogOk, LockOk;
    StepBounds(cfg, n);
    VotesMove(cfg, n, n');
    MoveKeeps(cfg, n, n');
  }

  lemma CommitStepKeeps(cfg: Config, n: Node, r: int)
    requires Inv(cfg, n) && n.halted.None? && 0 <= r
    requires n.votes.Maj23(r, Precommit).Some? && n.votes.Maj23(r, Precommit).value.Some?
    ensures Kept(cfg, n, n.MoveTo(n.round, COMMIT).(commitRound := r))
  {
    hide HeightOk, VotesOk, StepsOk, LogOk, LockOk;
    var n' := n.MoveTo(n.round, COMMIT).(commitRound := r);
    StepBounds(cfg, n);
    HeightMoves(cfg, n, n');
    VotesMove(cfg, n, n');
    StepsMove(n, n');
    LockMoves(cfg, n, n');
  }

  // ----- proposals and block parts ------------------------------------------------------------

  lemma {:induction false} PartsBound(have: set<nat>, total: nat)
    requires forall i <- have :: i < total
    ensures |have| <= total
  {
    if total == 0 {
      assert have == {};
    } else {
      PartsBound(have - {total - 1}, total - 1);
    }
  }

  /** A complete part set misses no part. */
  lemma CompleteHasAll(ps: PartSet, index: nat)
    requires ps.Valid() && ps.Complete() && index < ps.total
    ensures index in ps.have
  {
    if index !in ps.have {
      PartsBound(ps.have + {index}, ps.total);
      assert false;
    }
  }

  lemma ValidKeeps(cfg: Config, n: Node)
    requires Inv(cfg, n) && n.halted.None? && n.proposalBlock.Some?
    requires n.votes.Maj23(n.round, Prevote) == Some(n.proposalBlock)
    ensures Kept(cfg, n, n.SetValid(n.round))
  {
    hide HeightOk, VotesOk, StepsOk, LogOk, LockOk;
    var n' := n.SetValid(n.round);
    StepBounds(cfg, n);
    HeightMoves(cfg, n, n');
    VotesMove(cfg, n, n');
    StepsMove(n, n');
    LockMoves(cfg, n, n');
  }

  lemma HandleCompleteKeeps(cfg: Config, e: Env, n: Node, h: nat)
    requires Inv(cfg, n) && ConfigOk(cfg) && e.cfg == cfg && h == n.height && n.halted.None?
    ensures Kept(cfg, n, n.HandleCompleteProposal(e, h))
  {
    hide Inv;
    var polka := n.votes.Maj23(n.round, Prevote);
    var valid := polka.Some? && polka.value.Some? && n.validRound < n.round && HashesTo(n.proposalBlock, polka.value);
    var n1 := if valid then n.SetValid(n.round) else n;
    if valid {
      ValidKeeps(cfg, n);
    }
    TryFinalizeKeeps(cfg, e, n1, h);
    EnterPrevoteKeeps(cfg, e, n1, h, n1.round);
    var n2 := n1.EnterPrevote(e, h, n1.round);
    EnterPrecommitKeeps(cfg, e, n2, h, n2.round);
    KeptTrans(cfg, n, n1, n2);
    KeptTrans(cfg, n, n2, n2.EnterPrecommit(e, h, n2.round));
    KeptTrans(cfg, n, n1, n1.TryFinalizeCommit(e, h));
  }

  lemma AddBlockPartKeeps(cfg: Config, e: Env, n: Node, h: nat, header: BlockId, index: nat, readable: bool)
    requires Inv(cfg, n) && ConfigOk(cfg) && e.cfg == cfg && n.halted.None?
    ensures Kept(cfg, n, n.AddBlockPart(e, h, header, index, readable))
  {
    hide HeightOk, VotesOk, StepsOk, LogOk, LockOk, HaltOk;
    if n.AddBlockPart(e, h, header, index, readable) != n {
      var ps := n.proposalParts.value;
      if n.proposalBlock.Some? {
        CompleteHasAll(ps, index);
      }
      var n1 := n.(proposalParts := Some(ps.(have := ps.have + {index})));
      var n2 := if n1.proposalParts.value.Complete() && readable then n1.(proposalBlock := ps.header) else n1;
      ProposalKeeps(cfg, n, n2);
      HandleCompleteKeeps(cfg, e, n2, h);
      KeptTrans(cfg, n, n2, n2.HandleCompleteProposal(e, h));
    }
  }

  lemma SetProposalKeeps(cfg: Config, e: Env, n: Node, p: Proposal, checked: bool)
    requires Inv(cfg, n) && n.halted.None?
    ensures Kept(cfg, n, n.SetProposal(e, p, checked))
  {
    hide HeightOk, VotesOk, StepsOk, LogOk, LockOk, HaltOk;
    ProposalKeeps(cfg, n, n.SetProposal(e, p, checked));
  }

  // ----- votes --------------------------------------------------------------------------------

  /** Recording more votes. */
  lemma VotesGrow(cfg: Config, n: Node, n': Node)
    requires Inv(cfg, n) && n.halted.None? && n' == n.(votes := n'.votes)
    requires n'.votes.Valid(n.log) && Extends(n.votes, n'.votes) && n'.votes.round == n.votes.round
    ensures Kept(cfg, n, n')
  {
    hide HeightOk, StepsOk, LogOk, LockOk, HeightVoteSet.Valid;
    MoveKeeps(cfg, n, n');
  }

  lemma UpdateValidKeeps(cfg: Config, e: Env, n: Node, r: int, polka: Option<BlockId>)
    requires Inv(cfg, n) && n.halted.None? && n.votes.Maj23(r, Prevote) == Some(polka)
    ensures Kept(cfg, n, n.UpdateValid(e, r, polka))
  {
    hide HeightOk, VotesOk, StepsOk, LogOk, LockOk, HaltOk;
    if HashesTo(n.proposalBlock, polka) {
      if polka.Some? && n.validRound < r && r == n.round {
        ValidKeeps(cfg, n);
      }
    } else {
      ProposalKeeps(cfg, n, n.UpdateValid(e, r, polka));
    }
  }

  lemma OnPrevoteKeeps(cfg: Config, e: Env, n: Node, r: int)
    requires Inv(cfg, n) && ConfigOk(cfg) && e.cfg == cfg && n.halted.None?
    ensures Kept(cfg, n, n.OnPrevote(e, r))
  {
    hide Inv;
    match n.votes.Maj23(r, Prevote)
    case None =>
      AfterPrevoteKeeps(cfg, e, n, n, r);
    case Some(polka) =>
      PolkaKeeps(cfg, e, n, r, polka);
      AfterPrevoteKeeps(cfg, e, n, n.UnlockOn(r, polka).UpdateValid(e, r, polka), r);
  }

  lemma PolkaKeeps(cfg: Config, e: Env, n: Node, r: int, polka: Option<BlockId>)
    requires Inv(cfg, n) && n.halted.None? && n.votes.Maj23(r, Prevote) == Some(polka)
    ensures var n' := n.UnlockOn(r, polka).UpdateValid(e, r, polka); Kept(cfg, n, n') && n'.height == n.height
  {
    hide Inv;
    var n1 := n.UnlockOn(r, polka);
    if n1 != n {
      UnlockKeeps(cfg, n, r, polka);
    }
    UpdateValidKeeps(cfg, e, n1, r, polka);
    KeptTrans(cfg, n, n1, n1.UpdateValid(e, r, polka));
  }

  lemma AfterPrevoteKeeps(cfg: Config, e: Env, n: Node, m: Node, r: int)
    requires Inv(cfg, m) && Kept(cfg, n, m) && m.height == n.height && e.cfg == cfg && ConfigOk(cfg)
    ensures Kept(cfg, n, m.EnterNewRound(e, m.height, r)) && Kept(cfg, n, m.EnterPrevote(e, m.height, m.round))
    ensures r == m.round ==> Kept(cfg, n, m.EnterPrecommit(e, m.height, r))
    ensures r == m.round && m.votes.TwoThirdsAny(r, Prevote) ==> Kept(cfg, n, m.EnterPrevoteWait(e, m.height, r))
  {
    hide Inv;
    EnterNewRoundKeeps(cfg, e, m, m.height, r);
    KeptTrans(cfg, n, m, m.EnterNewRound(e, m.height, r));
    EnterPrevoteKeeps(cfg, e, m, m.height, m.round);
    KeptTrans(cfg, n, m, m.EnterPrevote(e, m.height, m.round));
    if r == m.round {
      EnterPrecommitKeeps(cfg, e, m, m.height, r);
      KeptTrans(cfg, n, m, m.EnterPrecommit(e, m.height, r));
      if m.votes.TwoThirdsAny(r, Prevote) {
        EnterPrevoteWaitKeeps(cfg, e, m, m.height, r);
        KeptTrans(cfg, n, m, m.EnterPrevoteWait(e, m.height, r));
      }
    }
  }

  lemma OnPrecommitKeeps(cfg: Config, e: Env, n: Node, r: int)
    requires Inv(cfg, n) && ConfigOk(cfg) && e.cfg == cfg && n.halted.None? && 0 <= r
    ensures Kept(cfg, n, n.OnPrecommit(e, r))
  {
    hide Inv;
    var h := n.height;
    var n1 := n.EnterNewRound(e, h, r);
    EnterNewRoundKeeps(cfg, e, n, h, r);
    match n.votes.Maj23(r, Precommit)
    case None =>
      if n.votes.TwoThirdsAny(r, Precommit) {
        EnterPrecommitWaitKeeps(cfg, e, n1, h, r);
        KeptTrans(cfg, n, n1, n1.EnterPrecommitWait(e, h, r));
      }
    case Some(id) =>
      var n2 := n1.EnterPrecommit(e, h, r);
      EnterPrecommitKeeps(cfg, e, n1, h, r);
      KeptTrans(cfg, n, n1, n2);
      if id.Some? {
        EnterCommitKeeps(cfg, e, n2, h, r);
        var n3 := n2.EnterCommit(e, h, r);
        KeptTrans(cfg, n, n2, n3);
        EnterNewRoundKeeps(cfg, e, n3, n3.height, 0);
        KeptTrans(cfg, n, n3, n3.EnterNewRound(e, n3.height, 0));
      } else {
        RecordedAny(cfg, n2, r, Precommit);
        EnterPrecommitWaitKeeps(cfg, e, n2, h, r);
        KeptTrans(cfg, n, n2, n2.EnterPrecommitWait(e, h, r));
      }
  }

  lemma RecordedAny(cfg: Config, n: Node, r: int, kind: VoteType)
    requires Inv(cfg, n) && n.votes.Maj23(r, kind).Some?
    ensures n.votes.TwoThirdsAny(r, kind)
  {
    RecordedMajorityIsAny(n.votes, n.log, r, kind);
  }

  lemma AddLastCommitKeeps(cfg: Config, e: Env, n: Node, vote: Vote)
    requires Inv(cfg, n) && e.cfg == cfg && n.halted.None? && vote in n.log && 1 <= vote.height
    requires vote.height + 1 == n.height
    ensures Kept(cfg, n, n.AddLastCommitVote(e, vote))
  {
    if n.step == NEW_HEIGHT {
      if n.lastCommit.None? {
        NilLastCommitKeeps(cfg, n);
      } else {
        var n1 := n.(lastCommit := Some(n.lastCommit.value.AddVote(vote).votes));
        LastCommitGrows(cfg, n, n1, vote);
        hide Inv;
        EnterNewRoundKeeps(cfg, e, n1, n.height, 0);
        KeptTrans(cfg, n, n1, n1.EnterNewRound(e, n.height, 0));
      }
    }
  }

  lemma NilLastCommitKeeps(cfg: Config, n: Node)
    requires Inv(cfg, n) && n.halted.None? && n.lastCommit.None? && n.step == NEW_HEIGHT && 2 <= n.height
    ensures Kept(cfg, n, n.Halt(NilLastCommit))
  {
    hide VotesOk, StepsOk, LogOk, LockOk;
    var n' := n.Halt(NilLastCommit);
    StepBounds(cfg, n);
    VotesMove(cfg, n, n');
    StepsMove(n, n');
    LockMoves(cfg, n, n');
  }

  lemma LastCommitGrows(cfg: Config, n: Node, n': Node, vote: Vote)
    requires Inv(cfg, n) && n.halted.None? && n.lastCommit.Some? && vote in n.log
    requires n' == n.(lastCommit := Some(n.lastCommit.value.AddVote(vote).votes))
    ensures Kept(cfg, n, n')
  {
    hide VotesOk, StepsOk, LogOk, LockOk, LastCommitOk;
    StepBounds(cfg, n);
    VotesMove(cfg, n, n');
    StepsMove(n, n');
    LockMoves(cfg, n, n');
    assert LastCommitOk(cfg, n') by { LastCommitAdds(cfg, n, n', vote); }
  }

  lemma LastCommitAdds(cfg: Config, n: Node, n': Node, vote: Vote)
    requires LastCommitOk(cfg, n) && n.lastCommit.Some? && vote in n.log
    requires n' == n.(lastCommit := Some(n.lastCommit.value.AddVote(vote).votes))
    ensures LastCommitOk(cfg, n')
  {
    hide VoteSet.AddVote, VoteSet.Valid, VoteSet.KeptIn;
    AddVoteKeeps(n.lastCommit.value, vote, n.log);
  }

  lemma VotesAreValid(cfg: Config, n: Node)
    requires Inv(cfg, n)
    ensures n.votes.Valid(n.log)
  {
  }

  lemma AddVoteHereKeeps(cfg: Config, e: Env, n: Node, vote: Vote, peer: Peer)
    requires Inv(cfg, n) && ConfigOk(cfg) && e.cfg == cfg && n.halted.None? && vote in n.log && 0 <= vote.round
    ensures var r := n.votes.AddVote(vote, peer); var n1 := n.(votes := r.votes);
            && Kept(cfg, n, n1)
            && (r.added ==> Kept(cfg, n, n1.OnPrevote(e, vote.round)) && Kept(cfg, n, n1.OnPrecommit(e, vote.round)))
  {
    hide Inv, Progress, Extends, Node.OnPrevote, Node.OnPrecommit, HeightVoteSet.AddVote, HeightVoteSet.Valid;
    VotesAreValid(cfg, n);
    HeightAddVoteKeeps(n.votes, vote, peer, n.log);
    var r := n.votes.AddVote(vote, peer);
    var n1 := n.(votes := r.votes);
    VotesGrow(cfg, n, n1);
    if r.added {
      OnPrevoteKeeps(cfg, e, n1, vote.round);
      OnPrecommitKeeps(cfg, e, n1, vote.round);
      KeptTrans(cfg, n, n1, n1.OnPrevote(e, vote.round));
      KeptTrans(cfg, n, n1, n1.OnPrecommit(e, vote.round));
    }
  }

  lemma AddVoteToNodeKeeps(cfg: Config, e: Env, n: Node, vote: Vote, peer: Peer)
    requires Inv(cfg, n) && ConfigOk(cfg) && e.cfg == cfg && n.halted.None? && vote in n.log && 1 <= vote.height
    requires 0 <= vote.round
    ensures Kept(cfg, n, n.AddVote(e, vote, peer))
  {
    hide Inv, Extends, Node.AddLastCommitVote, Node.OnPrevote, Node.OnPrecommit, HeightVoteSet.AddVote;
    if vote.height + 1 == n.height && vote.kind == Precommit {
      AddLastCommitKeeps(cfg, e, n, vote);
    } else if vote.height == n.height {
      AddVoteHereKeeps(cfg, e, n, vote, peer);
    } else {
      SameVotes(n);
    }
  }

  lemma SameVotes(n: Node)
    ensures Extends(n.votes, n.votes)
  {
  }

  // ----- timeouts and the event loop ----------------------------------------------------------

  /** Whatever is signed between the two states is for round `r` of the current height. */
  ghost predicate VotesOnlyIn(n: Node, n': Node, r: int) {
    n.log <= n'.log && forall i :: |n.log| <= i < |n'.log| ==> n'.log[i].height == n.height && n'.log[i].round == r
  }

  lemma ProposeVotes(e: Env, n: Node, h: nat, r: int)
    ensures var n' := n.EnterPropose(e, h, r); VotesOnlyIn(n, n', r) && (n.proposal.None? ==> n'.log == n.log)
  {
  }

  lemma NewRoundVotesOnly(e: Env, n: Node, h: nat, r: int)
    ensures var n' := n.EnterNewRound(e, h, r); VotesOnlyIn(n, n', r) && (r != 0 ==> n'.log == n.log)
  {
    hide HeightVoteSet.SetRound, Node.EnterPropose;
    if n.votes.SetRound(r + 1).Some? {
      var n0 := if r != 0 then n.ClearProposal() else n;
      var n1 := n0.MoveTo(r, NEW_ROUND).(votes := n.votes.SetRound(r + 1).value, triggeredPrecommit := false);
      ProposeVotes(e, n1, h, r);
    }
  }

  lemma PolkaVotes(e: Env, n: Node, r: int, polka: Option<BlockId>)
    ensures var log := n.PrecommitPolka(e, r, polka).log;
            || log == n.log || log == n.log + [Vote(n.me, n.height, n.round, Precommit, polka)]
            || log == n.log + [Vote(n.me, n.height, n.round, Precommit, None)]
  {
  }

  lemma PrecommitVotes(e: Env, n: Node, h: nat, r: int)
    ensures VotesOnlyIn(n, n.EnterPrecommit(e, h, r), n.round)
  {
    hide HeightVoteSet.POLRound, HeightVoteSet.Maj23, Node.PrecommitPolka;
    if n.votes.Maj23(r, Prevote).Some? {
      PolkaVotes(e, n, r, n.votes.Maj23(r, Prevote).value);
    }
  }

  /**
   * Scheduled timeouts never lie ahead of the node, so the votes a timeout makes it cast are for the timeout's own
   * round.
   */
  lemma HandleTimeoutKeeps(cfg: Config, e: Env, n: Node, t: Timeout)
    requires Inv(cfg, n) && e.cfg == cfg && n.halted.None? && TimeoutOk(n, t)
    ensures Kept(cfg, n, n.HandleTimeout(e, t)) && VotesOnlyIn(n, n.HandleTimeout(e, t), t.round)
  {
    hide Inv, Node.EnterNewRound, Node.EnterPropose, Node.EnterPrecommit;
    ProposeVotes(e, n, t.height, t.round);
    NewRoundVotesOnly(e, n, t.height, 0);
    NewHeightIsRoundZero(cfg, n);
    EnterNewRoundKeeps(cfg, e, n, t.height, 0);
    EnterProposeKeeps(cfg, e, n, t.height, t.round);
    EnterPrevoteKeeps(cfg, e, n, t.height, t.round);
    EnterPrecommitKeeps(cfg, e, n, t.height, t.round);
    PrecommitVotes(e, n, t.height, t.round);
    var n1 := n.EnterPrecommit(e, t.height, t.round);
    NewRoundVotesOnly(e, n1, t.height, t.round + 1);
    EnterNewRoundKeeps(cfg, e, n1, t.height, t.round + 1);
    KeptTrans(cfg, n, n1, n1.EnterNewRound(e, t.height, t.round + 1));
  }

  /** Round zero is the only one that begins with the step of a new height. */
  lemma NewHeightIsRoundZero(cfg: Config, n: Node)
    requires Inv(cfg, n)
    ensures NEW_HEIGHT <= n.step && (n.step == NEW_HEIGHT ==> n.round == 0)
  {
    hide HeightOk, FieldsOk, StepsOk, LogOk, LockOk, HaltOk;
  }

  lemma TxsAvailableKeeps(cfg: Config, e: Env, n: Node)
    requires Inv(cfg, n) && e.cfg == cfg && n.halted.None?
    ensures Kept(cfg, n, n.HandleTxsAvailable(e))
  {
    hide HeightOk, VotesOk, StepsOk, LogOk, LockOk;
    if n.step == NEW_HEIGHT {
      var n' := n.Schedule(Timeout(n.height, 0, NEW_ROUND));
      StepBounds(cfg, n);
      VotesMove(cfg, n, n');
      MoveKeeps(cfg, n, n');
    } else if n.round == 0 {
      EnterProposeKeeps(cfg, e, n, n.height, 0);
    }
  }

  /** What the environment may deliver: well-formed votes that were cast, and timeouts that were scheduled. */
  ghost predicate Deliverable(n: Node, ev: Event) {
    match ev
    case VoteMsg(vote, _) => vote in n.log && 1 <= vote.height && 0 <= vote.round
    case TimeoutMsg(t) => t in n.timeouts
    case _ => true
  }

  lemma ScheduledIsOk(cfg: Config, n: Node, t: Timeout)
    requires Inv(cfg, n) && t in n.timeouts
    ensures TimeoutOk(n, t)
  {
    hide HeightOk, VotesOk, StepsOk, LogOk, LockOk, HaltOk;
  }

  lemma HandleKeeps(cfg: Config, e: Env, n: Node, ev: Event)
    requires Inv(cfg, n) && ConfigOk(cfg) && e.cfg == cfg && Deliverable(n, ev)
    ensures Kept(cfg, n, n.Handle(e, ev))
  {
    hide Inv, Extends, TimeoutOk, HeightVoteSet.Valid, HeightVoteSet.SetPeerMaj23;
    hide Node.SetProposal, Node.AddBlockPart, Node.AddVote, Node.HandleTimeout, Node.HandleTxsAvailable;
    SameVotes(n);
    if n.halted.None? {
      match ev
      case ProposalMsg(p, checked) =>
        SetProposalKeeps(cfg, e, n, p, checked);
      case PartMsg(h, header, index, readable) =>
        AddBlockPartKeeps(cfg, e, n, h, header, index, readable);
      case VoteMsg(vote, peer) =>
        AddVoteToNodeKeeps(cfg, e, n, vote, peer);
      case PeerMaj23Msg(h, r, kind, peer, b) =>
        VotesAreValid(cfg, n);
        HeightPeerMaj23Keeps(n.votes, r, kind, peer, b, n.log);
        VotesGrow(cfg, n, n.(votes := n.votes.SetPeerMaj23(r, kind, peer, b)));
      case TimeoutMsg(t) =>
        ScheduledIsOk(cfg, n, t);
        HandleTimeoutKeeps(cfg, e, n, t);
      case TxsAvailable =>
        TxsAvailableKeeps(cfg, e, n);
    }
  }

  // ----- runs ---------------------------------------------------------------------------------

  /** An event handled by this node, or a vote cast by somebody else. */
  datatype Input = Local(env: Env, event: Event) | Remote(vote: Vote)

  function Apply(n: Node, i: Input): Node {
    match i
    case Local(e, ev) => n.Handle(e, ev)
    case Remote(v) => n.(log := n.log + [v])
  }

  function Run(n: Node, inputs: seq<Input>): Node {
    if inputs == [] then n else Apply(Run(n, inputs[..|inputs| - 1]), inputs[|inputs| - 1])
  }

  ghost predicate Allowed(cfg: Config, n: Node, i: Input) {
    match i
    case Local(e, ev) => e.cfg == cfg && Deliverable(n, ev)
    case Remote(v) => v.validator != n.me
  }

  ghost predicate AllAllowed(cfg: Config, n: Node, inputs: seq<Input>) {
    forall k :: 0 <= k < |inputs| ==> Allowed(cfg, Run(n, inputs[..k]), inputs[k])
  }

  lemma GenesisOk(cfg: Config, me: Validator)
    requires ConfigOk(cfg)
    ensures Inv(cfg, Genesis(cfg, me))
  {
    NextVotes(cfg, Genesis(cfg, me));
  }

  /** The invariant holds in every state a node can reach from genesis. */
  lemma {:induction false} EveryRunKeeps(cfg: Config, me: Validator, inputs: seq<Input>)
    requires ConfigOk(cfg) && AllAllowed(cfg, Genesis(cfg, me), inputs)
    ensures Inv(cfg, Run(Genesis(cfg, me), inputs)) && Run(Genesis(cfg, me), inputs).me == me
  {
    hide Inv;
    GenesisOk(cfg, me);
    if inputs != [] {
      var before := inputs[..|inputs| - 1];
      assert forall k :: 0 <= k < |before| ==> before[..k] == inputs[..k];
      EveryRunKeeps(cfg, me, before);
      var n := Run(Genesis(cfg, me), before);
      match inputs[|inputs| - 1]
      case Local(e, ev) => HandleKeeps(cfg, e, n, ev);
      case Remote(v) => RemoteVoteKeeps(cfg, n, v);
    }
  }

  /** Height, round and step never go back between two points of a run. */
  lemma {:induction false} RunNeverGoesBack(cfg: Config, me: Validator, inputs: seq<Input>, k: nat)
    requires ConfigOk(cfg) && AllAllowed(cfg, Genesis(cfg, me), inputs) && k <= |inputs|
    ensures var n, n' := Run(Genesis(cfg, me), inputs[..k]), Run(Genesis(cfg, me), inputs);
            Before(n.height, n.round, n.step, n'.height, n'.round, n'.step) && n.log <= n'.log
  {
    hide Inv;
    if k == |inputs| {
      assert inputs[..k] == inputs;
    } else {
      var before := inputs[..|inputs| - 1];
      assert forall j :: 0 <= j < |before| ==> before[..j] == inputs[..j];
      assert before[..k] == inputs[..k];
      RunNeverGoesBack(cfg, me, before, k);
      EveryRunKeeps(cfg, me, before);
      var n := Run(Genesis(cfg, me), before);
      match inputs[|inputs| - 1]
      case Local(e, ev) => HandleKeeps(cfg, e, n, ev);
      case Remote(v) => RemoteVoteKeeps(cfg, n, v);
    }
  }

  /** Over any run, a node casts at most one prevote and one precommit per height and round. */
  lemma OneVotePerRound(cfg: Config, me: Validator, inputs: seq<Input>, i: nat, j: nat)
    requires ConfigOk(cfg) && AllAllowed(cfg, Genesis(cfg, me), inputs)
    requires var log := Run(Genesis(cfg, me), inputs).log;
             && i < |log| && j < |log| && log[i].validator == me && log[j].validator == me
             && log[i].height == log[j].height && log[i].round == log[j].round && log[i].kind == log[j].kind
    ensures i == j
  {
    hide HeightOk, VotesOk, FieldsOk, LockOk, LogOk, StepsOk, HaltOk;
    EveryRunKeeps(cfg, me, inputs);
    SlotsUnique(cfg, me, Run(Genesis(cfg, me), inputs).log, i, j);
  }

  /**
   * No scheduled timeout lies ahead of the node, so one that is acted upon is for the current round and votes for it.
   */
  lemma TimeoutsAreNotAhead(cfg: Config, me: Validator, inputs: seq<Input>, t: Timeout)
    requires ConfigOk(cfg) && AllAllowed(cfg, Genesis(cfg, me), inputs) && t in Run(Genesis(cfg, me), inputs).timeouts
    ensures var n := Run(Genesis(cfg, me), inputs);
            t.height <= n.height && (t.height == n.height ==> t.round <= n.round)
  {
    EveryRunKeeps(cfg, me, inputs);
    hide HeightOk, VotesOk, LockOk, LogOk, StepsOk, HaltOk;
    assert TimeoutOk(Run(Genesis(cfg, me), inputs), t);
  }

  /** Finalised heights are consecutive from the initial one, each backed by a precommit majority in the log. */
  lemma DecisionsAreConsecutive(cfg: Config, me: Validator, inputs: seq<Input>, h: nat)
    requires ConfigOk(cfg) && AllAllowed(cfg, Genesis(cfg, me), inputs)
    ensures var n := Run(Genesis(cfg, me), inputs);
            && (h in n.decided <==> cfg.initialHeight <= h < n.height)
            && (h in n.decided ==> Decision(cfg, n.log, h, n.decided[h]))
  {
    EveryRunKeeps(cfg, me, inputs);
    hide Decision, VotesOk, FieldsOk, LockOk, LogOk, StepsOk, HaltOk, LastCommitOk;
  }

  /** The quorum, header, hash and height panics are unreachable; the two that remain say when they happen. */
  lemma ReachablePanics(cfg: Config, me: Validator, inputs: seq<Input>)
    requires ConfigOk(cfg) && AllAllowed(cfg, Genesis(cfg, me), inputs)
    ensures var n := Run(Genesis(cfg, me), inputs);
            match n.halted
            case None => true
            case Some(InvalidBlock(b)) =>
              !cfg.valid(n.height, b)
              && exists r, kind :: Majority(cfg.vals(n.height), n.log, n.height, r, kind, Some(b))
            case Some(NilLastCommit) => n.height == cfg.initialHeight && 2 <= cfg.initialHeight
            case _ => false
  {
    EveryRunKeeps(cfg, me, inputs);
    hide HeightOk, StepsOk, FieldsOk, LockOk, LogOk;
    var n := Run(Genesis(cfg, me), inputs);
    if n.halted.Some? && n.halted.value.InvalidBlock? {
      var r, kind :| n.votes.Maj23(r, kind) == Some(Some(n.halted.value.block));
      RecordedMajorityIsCast(n.votes, n.log, r, kind);
    }
  }

  /** A precommit for the previous height hits the nil last commit exactly in the first step of the initial height. */
  lemma NilLastCommitExactly(cfg: Config, e: Env, n: Node, vote: Vote, peer: Peer)
    requires Inv(cfg, n) && ConfigOk(cfg) && e.cfg == cfg && n.halted.None? && Deliverable(n, VoteMsg(vote, peer))
    requires vote.kind == Precommit && vote.height + 1 == n.height
    ensures n.AddVote(e, vote, peer).halted == Some(NilLastCommit) <==>
            n.height == cfg.initialHeight && n.step == NEW_HEIGHT
  {
    hide VotesOk, FieldsOk, StepsOk, LogOk, LockOk;
    if n.step == NEW_HEIGHT && n.lastCommit.Some? {
      var n1 := n.(lastCommit := Some(n.lastCommit.value.AddVote(vote).votes));
      LastCommitGrows(cfg, n, n1, vote);
      EnterNewRoundKeeps(cfg, e, n1, n.height, 0);
    }
  }

  /** That panic is reached: two inputs suffice whenever the chain does not start at height 1. */
  lemma NilLastCommitReached(cfg: Config, me: Validator, e: Env, vote: Vote, peer: Peer)
    requires ConfigOk(cfg) && e.cfg == cfg && vote.validator != me
    requires vote.kind == Precommit && vote.height + 1 == cfg.initialHeight && 1 <= vote.height && 0 <= vote.round
    ensures var inputs := [Remote(vote), Local(e, VoteMsg(vote, peer))];
            AllAllowed(cfg, Genesis(cfg, me), inputs) && Run(Genesis(cfg, me), inputs).halted == Some(NilLastCommit)
  {
    var n := Genesis(cfg, me);
    var inputs := [Remote(vote), Local(e, VoteMsg(vote, peer))];
    assert inputs[..0] == [] && inputs[..1] == [Remote(vote)];
    assert [Remote(vote)][..0] == [];
    assert Run(n, [Remote(vote)]) == n.(log := [vote]);
  }
}
