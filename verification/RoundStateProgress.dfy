/** A node decides as soon as it can: with the majority recorded and the block at hand, nothing else is needed. */
module RoundStateProgress {
  import opened Options
  import opened VoteSets
  import opened RoundStates
  import opened RoundStateInvariant
  import opened RoundStateSafety

  /** The node has decided `b` at the height of `n` and moved on. */
  predicate Decided(n: Node, n': Node, b: BlockId) {
    n'.decided == n.decided[n.height := b] && n'.height == n.height + 1 && n'.halted.None?
  }

  /** The node is in the commit step and collects the parts of `b`, which it does not have yet. */
  ghost predicate Waiting(n: Node, n': Node, b: BlockId) {
    && n'.decided == n.decided && n'.height == n.height && n'.halted.None?
    && n'.step == COMMIT && CommittedBlock(n') == Some(b) && HasHeader(n'.proposalParts, Some(b))
  }

  lemma FinalizeDecides(cfg: Config, e: Env, n: Node, b: BlockId)
    requires Inv(cfg, n) && ConfigOk(cfg) && e.cfg == cfg && n.halted.None? && n.step == COMMIT
    requires CommittedBlock(n) == Some(b) && n.proposalBlock == Some(b) && cfg.valid(n.height, b)
    ensures Decided(n, n.TryFinalizeCommit(e, n.height), b)
  {
    FinalizeOutcome(cfg, e, n, b);
    hide Inv, Node.FinalizeCommit, NewHeightVoteSet;
  }

  lemma LockedIsOk(cfg: Config, n: Node)
    requires Inv(cfg, n)
    ensures ProposalOk(n)
    ensures n.lockedBlock.Some? ==> ProposalOk(n.(proposalBlock := n.lockedBlock, proposalParts := n.lockedParts))
  {
    hide HeightOk, VotesOk, StepsOk, LogOk, LockOk, HaltOk;
  }

  /** A recorded precommit majority for a valid block that is locked or proposed is finalised at once. */
  lemma CommitDecides(cfg: Config, e: Env, n: Node, r: int, b: BlockId)
    requires Inv(cfg, n) && ConfigOk(cfg) && e.cfg == cfg && n.halted.None? && n.step < COMMIT && 0 <= r
    requires n.votes.Maj23(r, Precommit) == Some(Some(b)) && cfg.valid(n.height, b)
    requires n.lockedBlock == Some(b) || n.proposalBlock == Some(b)
    ensures Decided(n, n.EnterCommit(e, n.height, r), b)
  {
    hide Inv, ProposalOk, Extends, Node.TryFinalizeCommit, HeightVoteSet.Maj23;
    var n1 := if n.lockedBlock == Some(b) then n.(proposalBlock := n.lockedBlock, proposalParts := n.lockedParts)
              else n;
    LockedIsOk(cfg, n);
    ProposalKeeps(cfg, n, n1);
    CommitStepKeeps(cfg, n1, r);
    FinalizeDecides(cfg, e, n1.MoveTo(n.round, COMMIT).(commitRound := r), b);
  }

  /** Without the block, the commit step starts to collect it. */
  lemma CommitWaits(e: Env, n: Node, r: int, b: BlockId)
    requires n.halted.None? && n.step < COMMIT && n.votes.Maj23(r, Precommit) == Some(Some(b))
    requires n.lockedBlock != Some(b) && n.proposalBlock != Some(b)
    ensures Waiting(n, n.EnterCommit(e, n.height, r), b) && n.EnterCommit(e, n.height, r).round == n.round
  {
    hide HeightVoteSet.Maj23, Node.FinalizeCommit;
  }

  predicate Holds(n: Node, b: BlockId) {
    n.lockedBlock == Some(b) || n.proposalBlock == Some(b)
  }

  lemma SigningOnlyLogs(e: Env, n: Node, kind: VoteType, b: Option<BlockId>)
    ensures n.SignAddVote(e, kind, b) == n.(log := n.SignAddVote(e, kind, b).log)
  {
  }

  lemma PolkaLeavesBlock(e: Env, n: Node, r: int, b: BlockId)
    requires n.halted.None? && n.step < COMMIT && e.cfg.valid(n.height, b)
    ensures var n' := n.PrecommitPolka(e, r, Some(b));
            && (Holds(n, b) ==> Holds(n', b)) && n'.halted.None? && n'.step < COMMIT && n'.round == r
            && n'.votes == n.votes && n'.decided == n.decided && n'.height == n.height
  {
    hide Node.SignAddVote, Config.NewPartSet;
    SigningOnlyLogs(e, n.(lockedRound := r), Precommit, Some(b));
    var locked := n.(lockedRound := r, lockedBlock := n.proposalBlock, lockedParts := n.proposalParts);
    SigningOnlyLogs(e, locked, Precommit, Some(b));
    SigningOnlyLogs(e, n.Unlock().FetchBlock(e, Some(b)), Precommit, None);
  }

  /** Entering the precommit step of a round without a majority for something else leaves `b` locked or proposed. */
  lemma PrecommitLeavesBlock(cfg: Config, e: Env, n: Node, r: int, b: BlockId)
    requires Inv(cfg, n) && e.cfg == cfg && n.halted.None? && n.step < COMMIT && r <= n.round && cfg.valid(n.height, b)
    requires n.votes.Maj23(r, Prevote).None? || n.votes.Maj23(r, Prevote) == Some(Some(b))
    ensures var n' := n.EnterPrecommit(e, n.height, r);
            && (Holds(n, b) ==> Holds(n', b)) && n'.halted.None? && n'.step < COMMIT && n'.round == n.round
            && n'.votes == n.votes && n'.decided == n.decided && n'.height == n.height
  {
    hide HeightOk, VotesOk, FieldsOk, StepsOk, LogOk, LockOk, HaltOk, HeightVoteSet.Maj23;
    hide HeightVoteSet.POLRound, Node.PrecommitPolka;
    if n.votes.Maj23(r, Prevote).Some? && r == n.round {
      POLIsCurrent(cfg, n);
      PolkaLeavesBlock(e, n, r, b);
    }
  }

  lemma SetRoundRecords(h: HeightVoteSet, r: int, q: int, kind: VoteType)
    ensures h.SetRound(r).Some? ==> h.SetRound(r).value.Maj23(q, kind) == h.Maj23(q, kind)
  {
  }

  lemma ProposeLeavesBlock(e: Env, n: Node, h: nat, r: int)
    ensures var n' := n.EnterPropose(e, h, r);
            && n'.decided == n.decided && n'.lockedBlock == n.lockedBlock && n'.proposalBlock == n.proposalBlock
            && n'.votes == n.votes && (n.step < COMMIT ==> n'.step < COMMIT)
  {
    hide HeightVoteSet.Maj23;
  }

  /** A new round forgets the proposal, unless it is the first, but neither the lock nor a recorded majority. */
  lemma NewRoundLeavesBlock(e: Env, n: Node, h: nat, r: int)
    ensures var n' := n.EnterNewRound(e, h, r);
            && n'.decided == n.decided && n'.lockedBlock == n.lockedBlock && (n.step < COMMIT ==> n'.step < COMMIT)
            && (r == 0 || r < n.round || (r == n.round && n.step != NEW_HEIGHT) ==> n'.proposalBlock == n.proposalBlock)
            && (n'.votes == n.votes || Some(n'.votes) == n.votes.SetRound(r + 1))
  {
    hide HeightVoteSet.SetRound, Node.EnterPropose;
    if n.votes.SetRound(r + 1).Some? {
      var n0 := if r != 0 then n.ClearProposal() else n;
      var n1 := n0.MoveTo(r, NEW_ROUND).(votes := n.votes.SetRound(r + 1).value, triggeredPrecommit := false);
      ProposeLeavesBlock(e, n1, h, r);
    }
  }

  lemma CommitsInRound(cfg: Config, e: Env, n: Node, r: int, b: BlockId)
    requires Inv(cfg, n) && ConfigOk(cfg) && e.cfg == cfg && n.halted.None? && n.step < COMMIT && 0 <= r <= n.round
    requires n.votes.Maj23(r, Precommit) == Some(Some(b)) && cfg.valid(n.height, b)
    requires n.votes.Maj23(r, Prevote).None? || n.votes.Maj23(r, Prevote) == Some(Some(b))
    ensures var c := n.EnterPrecommit(e, n.height, r).EnterCommit(e, n.height, r);
            var c' := c.EnterNewRound(e, c.height, 0);
            if Holds(n, b) then Decided(n, c, b) && Decided(n, c', b)
            else (Decided(n, c, b) && Decided(n, c', b)) || (Waiting(n, c, b) && c' == c)
  {
    hide Inv, Node.EnterPrecommit, Node.EnterCommit, HeightVoteSet.Maj23, HeightVoteSet.SetRound, Node.EnterPropose;
    EnterPrecommitKeeps(cfg, e, n, n.height, r);
    PrecommitLeavesBlock(cfg, e, n, r, b);
    var n1 := n.EnterPrecommit(e, n.height, r);
    var c := n1.EnterCommit(e, n.height, r);
    if Holds(n1, b) {
      CommitDecides(cfg, e, n1, r, b);
      EnterCommitKeeps(cfg, e, n1, n.height, r);
      EnterNewRoundKeeps(cfg, e, c, c.height, 0);
      NewRoundLeavesBlock(e, c, c.height, 0);
    } else {
      CommitWaits(e, n1, r, b);
    }
  }

  /**
   * A recorded precommit majority makes the node decide its block or wait for it in the commit step. It decides if it
   * is locked on the block, in whatever round it is, or has it as the proposal of a round it need not leave.
   */
  lemma MajorityDecides(cfg: Config, e: Env, n: Node, r: int, b: BlockId)
    requires Inv(cfg, n) && ConfigOk(cfg) && e.cfg == cfg && n.halted.None? && n.step < COMMIT && 0 <= r
    requires n.votes.Maj23(r, Precommit) == Some(Some(b)) && cfg.valid(n.height, b)
    requires n.votes.Maj23(r, Prevote).None? || n.votes.Maj23(r, Prevote) == Some(Some(b))
    ensures Decided(n, n.OnPrecommit(e, r), b) || Waiting(n, n.OnPrecommit(e, r), b)
    ensures n.lockedBlock == Some(b) || (n.proposalBlock == Some(b) && r <= n.round) ==>
              Decided(n, n.OnPrecommit(e, r), b)
  {
    hide Inv, Node.EnterNewRound, Node.EnterPrecommit, Node.EnterCommit;
    hide HeightVoteSet.Maj23, HeightVoteSet.HasAll, HeightVoteSet.SetRound;
    NewHeightIsRoundZero(cfg, n);
    NewRoundLeavesBlock(e, n, n.height, r);
    SetRoundRecords(n.votes, r + 1, r, Precommit);
    SetRoundRecords(n.votes, r + 1, r, Prevote);
    EnterNewRoundKeeps(cfg, e, n, n.height, r);
    CommitsInRound(cfg, e, n.EnterNewRound(e, n.height, r), r, b);
  }

  lemma CompleteDecides(cfg: Config, e: Env, n: Node, b: BlockId)
    requires Inv(cfg, n) && ConfigOk(cfg) && e.cfg == cfg && n.halted.None? && n.step == COMMIT
    requires CommittedBlock(n) == Some(b) && n.proposalBlock == Some(b) && cfg.valid(n.height, b)
    ensures Decided(n, n.HandleCompleteProposal(e, n.height), b)
  {
    hide Inv, Node.TryFinalizeCommit, HeightVoteSet.Maj23;
    var polka := n.votes.Maj23(n.round, Prevote);
    if polka == Some(Some(b)) && n.validRound < n.round {
      ValidKeeps(cfg, n);
      FinalizeDecides(cfg, e, n.SetValid(n.round), b);
    } else {
      FinalizeDecides(cfg, e, n, b);
    }
  }

  /** In the commit step the last part of the committed block makes the node finalise. */
  lemma LastPartDecides(cfg: Config, e: Env, n: Node, b: BlockId, index: nat)
    requires Inv(cfg, n) && ConfigOk(cfg) && e.cfg == cfg && n.halted.None? && n.step == COMMIT
    requires CommittedBlock(n) == Some(b) && cfg.valid(n.height, b) && HasHeader(n.proposalParts, Some(b))
    requires var ps := n.proposalParts.value; index < ps.total && index !in ps.have && |ps.have| + 1 == ps.total
    ensures Decided(n, n.AddBlockPart(e, n.height, b, index, true), b)
  {
    hide Inv, Node.HandleCompleteProposal, HeightVoteSet.Maj23;
    var ps := n.proposalParts.value;
    var n1 := n.(proposalParts := Some(ps.(have := ps.have + {index})), proposalBlock := Some(b));
    ProposalIsOk(cfg, n);
    assert |ps.have + {index}| == ps.total;
    ProposalKeeps(cfg, n, n1);
    CompleteDecides(cfg, e, n1, b);
  }

  lemma ProposalIsOk(cfg: Config, n: Node)
    requires Inv(cfg, n)
    ensures ProposalOk(n)
  {
    hide HeightOk, VotesOk, StepsOk, LogOk, LockOk, HaltOk;
  }
}
