/**
 * The consensus state machine as the source runs it: an object whose methods update its fields in place. Every method
 * is proved equal to the transition function of RoundStates with the same name; the steps of the protocol also state
 * that they keep the node invariant.
 */
module ConsensusState {
  import opened Options
  import opened VotingPower
  import opened VoteSets
  import opened RoundStates
  import opened RoundStateInvariant
  import opened RoundStateSafety
  import opened RoundStateEffects

  /** What every reachable state satisfies. */
  ghost predicate Sound(e: Env, n: Node) {
    ConfigOk(e.cfg) && Inv(e.cfg, n)
  }

  /** A precommit majority for a block is recorded in round `r`. */
  predicate HasCommit(n: Node, r: int) {
    n.votes.Maj23(r, Precommit).Some? && n.votes.Maj23(r, Precommit).value.Some?
  }

  lemma TimeoutIsSound(e: Env, n: Node, t: Timeout)
    ensures Sound(e, n) && n.halted.None? && TimeoutOk(n, t) ==>
              Kept(e.cfg, n, n.HandleTimeout(e, t)) && VotesOnlyIn(n, n.HandleTimeout(e, t), t.round)
  {
    hide Inv, Kept, VotesOnlyIn, Node.HandleTimeout;
    if Sound(e, n) && n.halted.None? && TimeoutOk(n, t) {
      HandleTimeoutKeeps(e.cfg, e, n, t);
    }
  }

  class State {
    const me: Validator
    var height: nat
    var round: int
    var step: Step
    var proposal: Option<Proposal>
    var proposalBlock: Option<BlockId>
    var proposalParts: Option<PartSet>
    var lockedRound: int
    var lockedBlock: Option<BlockId>
    var lockedParts: Option<PartSet>
    var validRound: int
    var validBlock: Option<BlockId>
    var validParts: Option<PartSet>
    var votes: HeightVoteSet
    var commitRound: int
    var lastCommit: Option<VoteSet>
    var triggeredPrecommit: bool
    var stateHeight: nat
    var timeouts: set<Timeout>
    var decided: map<nat, BlockId>
    var log: seq<Vote>
    var halted: Option<Panic>

    function View(): Node
      reads this
    {
      Node(me, height, round, step, proposal, proposalBlock, proposalParts,
           lockedRound, lockedBlock, lockedParts, validRound, validBlock, validParts,
           votes, commitRound, lastCommit, triggeredPrecommit, stateHeight, timeouts, decided, log, halted)
    }

    constructor (cfg: Config, key: Validator)
      ensures View() == Genesis(cfg, key) && (ConfigOk(cfg) ==> Inv(cfg, View()))
      ensures height == cfg.initialHeight && round == 0 && step == NEW_HEIGHT && log == [] && decided == map[]
      ensures timeouts == {Timeout(cfg.initialHeight, 0, NEW_HEIGHT)} && halted.None?
    {
      hide Inv, ConfigOk;
      if ConfigOk(cfg) {
        GenesisOk(cfg, key);
      }
      me := key;
      height, round, step := cfg.initialHeight, 0, NEW_HEIGHT;
      proposal, proposalBlock, proposalParts := None, None, None;
      lockedRound, lockedBlock, lockedParts := -1, None, None;
      validRound, validBlock, validParts := -1, None, None;
      votes := NewHeightVoteSet(cfg.initialHeight, cfg.vals(cfg.initialHeight));
      commitRound, lastCommit, triggeredPrecommit := -1, None, false;
      stateHeight, timeouts, decided, log, halted := 0, {Timeout(cfg.initialHeight, 0, NEW_HEIGHT)}, map[], [], None;
    }

    method ScheduleTimeout(t: Timeout)
      modifies this`timeouts
      ensures View() == old(View()).Schedule(t)
    {
      timeouts := timeouts + {t};
    }

    method UpdateRoundStep(r: int, s: Step)
      modifies this`round, this`step
      ensures View() == old(View()).MoveTo(r, s)
    {
      round, step := r, s;
    }

    method SignAddVote(e: Env, kind: VoteType, block: Option<BlockId>)
      modifies this`log
      ensures View() == old(View()).SignAddVote(e, kind, block)
    {
      if me in e.cfg.vals(height).powers && e.signs(height, round, kind) {
        log := log + [Vote(me, height, round, kind, block)];
      }
    }

    method ClearProposal()
      modifies this`proposal, this`proposalBlock, this`proposalParts
      ensures View() == old(View()).ClearProposal()
    {
      proposal, proposalBlock, proposalParts := None, None, None;
    }

    method Unlock()
      modifies this`lockedRound, this`lockedBlock, this`lockedParts
      ensures View() == old(View()).Unlock()
    {
      lockedRound, lockedBlock, lockedParts := -1, None, None;
    }

    method LockProposal(r: int)
      modifies this`lockedRound, this`lockedBlock, this`lockedParts
      ensures View() == old(View()).(lockedRound := r, lockedBlock := proposalBlock, lockedParts := proposalParts)
    {
      lockedRound, lockedBlock, lockedParts := r, proposalBlock, proposalParts;
    }

    method SetValid(r: int)
      modifies this`validRound, this`validBlock, this`validParts
      ensures View() == old(View()).SetValid(r)
    {
      validRound, validBlock, validParts := r, proposalBlock, proposalParts;
    }

    method EnterNewRound(e: Env, h: nat, r: int)
      modifies this
      ensures View() == old(View()).EnterNewRound(e, h, r)
      ensures var n := old(View()); Sound(e, n) ==> Kept(e.cfg, n, View())
    {
      ghost var n := View();
      hide Inv, Kept;
      if Sound(e, n) {
        EnterNewRoundKeeps(e.cfg, e, n, h, r);
      }
      hide Node.TrackRound;
      if halted.Some? || height != h || r < round || (round == r && step != NEW_HEIGHT) {
        return;
      }
      UpdateRoundStep(r, NEW_ROUND);
      if r != 0 {
        ClearProposal();
      }
      TrackRound(e, h, r);
    }

    method TrackRound(e: Env, h: nat, r: int)
      modifies this
      ensures View() == old(View()).TrackRound(e, h, r)
    {
      hide Node.BeginRound, HeightVoteSet.SetRound;
      match votes.SetRound(r + 1) {
        case None =>
          halted := Some(RoundRegression);
        case Some(vs) =>
          votes, triggeredPrecommit := vs, false;
          BeginRound(e, h, r);
      }
    }

    method BeginRound(e: Env, h: nat, r: int)
      modifies this
      ensures View() == old(View()).BeginRound(e, h, r)
    {
      hide Node.EnterPropose;
      if e.waits(h) && r == 0 {
        if e.emptyBlocksInterval {
          ScheduleTimeout(Timeout(h, r, NEW_ROUND));
        }
      } else {
        EnterPropose(e, h, r);
      }
    }

    method EnterPropose(e: Env, h: nat, r: int)
      modifies this
      ensures View() == old(View()).EnterPropose(e, h, r)
      ensures var n := old(View()); Sound(e, n) && (h == n.height ==> r <= n.round) ==> Kept(e.cfg, n, View())
    {
      ghost var n := View();
      hide Inv, Kept, CastsPrevote, Precommitted;
      if Sound(e, n) && (h == n.height ==> r <= n.round) {
        EnterProposeKeeps(e.cfg, e, n, h, r);
      }
      if halted.Some? || height != h || r < round || (round == r && PROPOSE <= step) {
        return;
      }
      ScheduleTimeout(Timeout(h, r, PROPOSE));
      UpdateRoundStep(r, PROPOSE);
      if View().IsProposalComplete() {
        EnterPrevote(e, h, round);
      }
    }

    method EnterPrevote(e: Env, h: nat, r: int)
      modifies this
      ensures View() == old(View()).EnterPrevote(e, h, r)
      ensures var n := old(View()); Sound(e, n) && (h == n.height ==> r <= n.round) ==> Kept(e.cfg, n, View())
      ensures var n := old(View());
              n.halted.None? && h == n.height && r == n.round && n.step < PREVOTE ==>
                CastsPrevote(e, n, View()) && step == PREVOTE
    {
      ghost var n := View();
      hide Inv, Kept, CastsPrevote;
      if n.halted.None? && n.step < PREVOTE {
        PrevoteStep(e, n);
      }
      if Sound(e, n) && (h == n.height ==> r <= n.round) {
        EnterPrevoteKeeps(e.cfg, e, n, h, r);
      }
      if halted.Some? || height != h || r < round || (round == r && PREVOTE <= step) {
        return;
      }
      DoPrevote(e);
      UpdateRoundStep(r, PREVOTE);
    }

    method DoPrevote(e: Env)
      modifies this`log
      ensures View() == old(View()).SignAddVote(e, Prevote, old(View()).PrevoteFor(e))
      ensures CastsPrevote(e, old(View()), View())
      ensures Sound(e, old(View())) ==>
                log == old(log) || (|log| == |old(log)| + 1 && Justified(e.cfg, me, old(log), log[|old(log)|]))
    {
      hide Inv, Justified, CastsPrevote;
      PrevoteIsCast(e, View());
      if Sound(e, View()) {
        PrevoteJustified(e.cfg, e, View());
      }
      if lockedBlock.Some? {
        SignAddVote(e, Prevote, lockedBlock);
        return;
      }
      if proposalBlock.None? {
        SignAddVote(e, Prevote, None);
        return;
      }
      if !e.cfg.valid(height, proposalBlock.value) {
        SignAddVote(e, Prevote, None);
        return;
      }
      if !e.accepts(height, proposalBlock.value) {
        SignAddVote(e, Prevote, None);
        return;
      }
      SignAddVote(e, Prevote, proposalBlock);
    }

    method EnterPrevoteWait(e: Env, h: nat, r: int)
      modifies this
      ensures View() == old(View()).EnterPrevoteWait(e, h, r)
      ensures var n := old(View());
              Sound(e, n) && (h == n.height ==> r <= n.round && n.votes.TwoThirdsAny(r, Prevote)) ==>
                Kept(e.cfg, n, View())
    {
      ghost var n := View();
      hide Inv, Kept;
      if Sound(e, n) && (h == n.height ==> r <= n.round && n.votes.TwoThirdsAny(r, Prevote)) {
        EnterPrevoteWaitKeeps(e.cfg, e, n, h, r);
      }
      if halted.Some? || height != h || r < round || (round == r && PREVOTE_WAIT <= step) {
        return;
      }
      if !votes.TwoThirdsAny(r, Prevote) {
        halted := Some(NoPrevoteQuorum);
        return;
      }
      ScheduleTimeout(Timeout(h, r, PREVOTE_WAIT));
      UpdateRoundStep(r, PREVOTE_WAIT);
    }

    method EnterPrecommit(e: Env, h: nat, r: int)
      modifies this
      ensures View() == old(View()).EnterPrecommit(e, h, r)
      ensures var n := old(View()); Sound(e, n) && (h == n.height ==> r <= n.round) ==> Kept(e.cfg, n, View())
      ensures var n := old(View());
              Sound(e, n) && n.halted.None? && h == n.height && r == n.round && n.step < PRECOMMIT ==>
                Precommitted(e, n, View())
    {
      ghost var n := View();
      hide Inv, Kept, Precommitted;
      if Sound(e, n) && n.halted.None? && n.step < PRECOMMIT {
        PrecommitStep(e.cfg, e, n);
      }
      if Sound(e, n) && (h == n.height ==> r <= n.round) {
        EnterPrecommitKeeps(e.cfg, e, n, h, r);
      }
      if halted.Some? || height != h || r < round || (round == r && PRECOMMIT <= step) {
        return;
      }
      match votes.Maj23(r, Prevote) {
        case None =>
          SignAddVote(e, Precommit, None);
          UpdateRoundStep(r, PRECOMMIT);
        case Some(polka) =>
          if votes.POLRound(votes.round) < r {
            halted := Some(StalePOL);
          } else {
            PrecommitPolka(e, r, polka);
          }
      }
    }

    method PrecommitPolka(e: Env, r: int, polka: Option<BlockId>)
      modifies this
      ensures View() == old(View()).PrecommitPolka(e, r, polka)
      ensures var n := old(View());
              (&& Sound(e, n) && n.halted.None? && n.step < PRECOMMIT && r == n.round
               && n.votes.Maj23(r, Prevote) == Some(polka)) ==>
                Kept(e.cfg, n, View()) && Precommitted(e, n, View())
    {
      ghost var n := View();
      hide Inv, Kept, Precommitted;
      if Sound(e, n) && n.halted.None? && n.step < PRECOMMIT && r == n.round
         && n.votes.Maj23(r, Prevote) == Some(polka) {
        PrecommitPolkaKeeps(e.cfg, e, n, polka);
        FactsAtPrecommit(e.cfg, n);
        PolkaStep(e, n, polka);
      }
      hide Node.SignAddVote, Node.FetchBlock;
      if polka.None? {
        if lockedBlock.Some? {
          Unlock();
        }
        SignAddVote(e, Precommit, None);
      } else if HashesTo(lockedBlock, polka) {
        lockedRound := r;
        SignAddVote(e, Precommit, polka);
      } else if HashesTo(proposalBlock, polka) {
        if !e.cfg.valid(height, polka.value) {
          halted := Some(InvalidBlock(polka.value));
          return;
        }
        LockProposal(r);
        SignAddVote(e, Precommit, polka);
      } else {
        Unlock();
        FetchBlock(e, polka);
        SignAddVote(e, Precommit, None);
      }
      UpdateRoundStep(r, PRECOMMIT);
    }

    method FetchBlock(e: Env, id: Option<BlockId>)
      modifies this`proposalBlock, this`proposalParts
      ensures View() == old(View()).FetchBlock(e, id)
    {
      if !HasHeader(proposalParts, id) {
        proposalBlock, proposalParts := None, Some(e.cfg.NewPartSet(id));
      }
    }

    method EnterPrecommitWait(e: Env, h: nat, r: int)
      modifies this
      ensures View() == old(View()).EnterPrecommitWait(e, h, r)
      ensures var n := old(View());
              Sound(e, n) && (h == n.height ==> r <= n.round && n.votes.TwoThirdsAny(r, Precommit)) ==>
                Kept(e.cfg, n, View())
    {
      ghost var n := View();
      hide Inv, Kept;
      if Sound(e, n) && (h == n.height ==> r <= n.round && n.votes.TwoThirdsAny(r, Precommit)) {
        EnterPrecommitWaitKeeps(e.cfg, e, n, h, r);
      }
      if halted.Some? || height != h || r < round || (round == r && triggeredPrecommit) {
        return;
      }
      if !votes.TwoThirdsAny(r, Precommit) {
        halted := Some(NoPrecommitQuorum);
        return;
      }
      ScheduleTimeout(Timeout(h, r, PRECOMMIT_WAIT));
      triggeredPrecommit := true;
    }

    method EnterCommit(e: Env, h: nat, r: int)
      modifies this
      ensures View() == old(View()).EnterCommit(e, h, r)
      ensures var n := old(View()); Sound(e, n) && 0 <= r && (h == n.height ==> HasCommit(n, r)) ==>
                Kept(e.cfg, n, View())
    {
      ghost var n := View();
      hide Inv, Kept;
      if Sound(e, n) && 0 <= r && (h == n.height ==> HasCommit(n, r)) {
        EnterCommitKeeps(e.cfg, e, n, h, r);
      }
      hide Node.TryFinalizeCommit, Node.CommitBlock, HeightVoteSet.Maj23;
      if halted.Some? || height != h || COMMIT <= step {
        return;
      }
      var majority := votes.Maj23(r, Precommit);
      if majority.None? {
        halted := Some(NoCommitQuorum);
        return;
      }
      var id := majority.value;
      CommitBlock(e, id);
      BeginCommit(r);
      TryFinalizeCommit(e, h);
    }

    method BeginCommit(r: int)
      modifies this`step, this`commitRound
      ensures View() == old(View()).MoveTo(old(round), COMMIT).(commitRound := r)
    {
      step, commitRound := COMMIT, r;
    }

    method CommitBlock(e: Env, id: Option<BlockId>)
      modifies this`proposalBlock, this`proposalParts
      ensures View() == old(View()).CommitBlock(e, id)
    {
      hide Node.FetchBlock;
      if HashesTo(lockedBlock, id) {
        proposalBlock, proposalParts := lockedBlock, lockedParts;
      }
      if !HashesTo(proposalBlock, id) {
        FetchBlock(e, id);
      }
    }

    method TryFinalizeCommit(e: Env, h: nat)
      modifies this
      ensures View() == old(View()).TryFinalizeCommit(e, h)
      ensures var n := old(View()); Sound(e, n) && h == n.height ==> Kept(e.cfg, n, View())
    {
      ghost var n := View();
      hide Inv, Kept;
      if Sound(e, n) && h == n.height {
        TryFinalizeKeeps(e.cfg, e, n, h);
      }
      if halted.Some? {
        return;
      }
      if height != h {
        halted := Some(WrongHeight);
        return;
      }
      var majority := votes.Maj23(commitRound, Precommit);
      if majority.None? || majority.value.None? || !HashesTo(proposalBlock, majority.value) {
        return;
      }
      FinalizeCommit(e, h);
    }

    method FinalizeCommit(e: Env, h: nat)
      modifies this
      ensures View() == old(View()).FinalizeCommit(e, h)
      ensures var n := old(View()); Sound(e, n) && HashesTo(n.proposalBlock, CommittedBlock(n)) ==>
                Kept(e.cfg, n, View())
    {
      ghost var n := View();
      hide Inv, Kept;
      if Sound(e, n) && HashesTo(n.proposalBlock, CommittedBlock(n)) {
        FinalizeKeeps(e.cfg, e, n, h);
      }
      if halted.Some? || height != h || step != COMMIT {
        return;
      }
      var majority := votes.Maj23(commitRound, Precommit);
      if majority.None? {
        halted := Some(NoFinalizeQuorum);
        return;
      }
      if !HasHeader(proposalParts, majority.value) {
        halted := Some(WrongParts);
        return;
      }
      if !HashesTo(proposalBlock, majority.value) {
        halted := Some(WrongBlock);
        return;
      }
      if !e.cfg.valid(height, proposalBlock.value) {
        halted := Some(InvalidBlock(proposalBlock.value));
        return;
      }
      decided := decided[h := proposalBlock.value];
      UpdateToState(e, h);
      if halted.None? {
        ScheduleTimeout(Timeout(height, 0, NEW_HEIGHT));
      }
    }

    method UpdateToState(e: Env, last: nat)
      modifies this
      ensures View() == old(View()).UpdateToState(e, last)
    {
      hide HeightVoteSet.Maj23, NewHeightVoteSet;
      if commitRound > -1 && 0 < height && height != last {
        halted := Some(StateMismatch);
        return;
      }
      if stateHeight > 0 && stateHeight + 1 != height {
        halted := Some(StateMismatch);
        return;
      }
      if stateHeight > 0 && height == e.cfg.initialHeight {
        halted := Some(StateMismatch);
        return;
      }
      if last <= stateHeight {
        return;
      }
      if commitRound > -1 {
        if votes.Maj23(commitRound, Precommit).None? {
          halted := Some(NoLastCommitQuorum);
          return;
        }
        if commitRound in votes.rounds {
          lastCommit := Some(votes.rounds[commitRound].precommits);
        }
      } else if lastCommit.None? {
        halted := Some(MissingLastCommit);
        return;
      }
      NewHeight(e, last + 1);
      stateHeight := last;
    }

    method NewHeight(e: Env, h: nat)
      modifies this
      ensures View() == old(View()).NewHeight(e, h, old(lastCommit))
    {
      hide NewHeightVoteSet;
      UpdateRoundStep(0, NEW_HEIGHT);
      ClearProposal();
      Unlock();
      ClearValid();
      ResetVotes(e, h);
    }

    method ClearValid()
      modifies this`validRound, this`validBlock, this`validParts
      ensures View() == old(View()).(validRound := -1, validBlock := None, validParts := None)
    {
      validRound, validBlock, validParts := -1, None, None;
    }

    method ResetVotes(e: Env, h: nat)
      modifies this`height, this`votes, this`commitRound, this`triggeredPrecommit
      ensures View() == old(View()).(height := h, votes := NewHeightVoteSet(h, e.cfg.vals(h)), commitRound := -1,
                                     triggeredPrecommit := false)
    {
      hide NewHeightVoteSet;
      height, votes, commitRound, triggeredPrecommit := h, NewHeightVoteSet(h, e.cfg.vals(h)), -1, false;
    }

    method SetProposal(e: Env, p: Proposal, checked: bool)
      modifies this
      ensures View() == old(View()).SetProposal(e, p, checked)
      ensures var n := old(View()); Sound(e, n) && n.halted.None? ==> Kept(e.cfg, n, View())
    {
      ghost var n := View();
      hide Inv, Kept;
      if Sound(e, n) && n.halted.None? {
        SetProposalKeeps(e.cfg, e, n, p, checked);
      }
      if proposal.Some? || p.height != height || p.round != round {
        return;
      }
      if p.polRound < -1 || (p.polRound >= 0 && p.polRound >= p.round) || !checked {
        return;
      }
      proposal := Some(p);
      if proposalParts.None? {
        proposalParts := Some(e.cfg.NewPartSet(Some(p.block)));
      }
    }

    method AddBlockPart(e: Env, h: nat, header: BlockId, index: nat, readable: bool)
      modifies this
      ensures View() == old(View()).AddBlockPart(e, h, header, index, readable)
      ensures var n := old(View()); Sound(e, n) && n.halted.None? ==> Kept(e.cfg, n, View())
    {
      ghost var n := View();
      hide Inv, Kept;
      if Sound(e, n) && n.halted.None? {
        AddBlockPartKeeps(e.cfg, e, n, h, header, index, readable);
      }
      if height != h || proposalParts.None? {
        return;
      }
      var ps := proposalParts.value;
      if index >= ps.total || index in ps.have || ps.header != Some(header) {
        return;
      }
      ps := ps.(have := ps.have + {index});
      proposalParts := Some(ps);
      if ps.Complete() {
        if readable {
          proposalBlock := ps.header;
        }
        HandleCompleteProposal(e, h);
      }
    }

    method HandleCompleteProposal(e: Env, h: nat)
      modifies this
      ensures View() == old(View()).HandleCompleteProposal(e, h)
      ensures var n := old(View()); Sound(e, n) && n.halted.None? && h == n.height ==> Kept(e.cfg, n, View())
    {
      ghost var n := View();
      hide Inv, Kept, CastsPrevote, Precommitted;
      if Sound(e, n) && n.halted.None? && h == n.height {
        HandleCompleteKeeps(e.cfg, e, n, h);
      }
      var polka := votes.Maj23(round, Prevote);
      if polka.Some? && polka.value.Some? && validRound < round && HashesTo(proposalBlock, polka.value) {
        SetValid(round);
      }
      if step <= PROPOSE && View().IsProposalComplete() {
        EnterPrevote(e, h, round);
        if polka.Some? {
          EnterPrecommit(e, h, round);
        }
      } else if step == COMMIT {
        TryFinalizeCommit(e, h);
      }
    }

    method AddVote(e: Env, vote: Vote, peer: Peer)
      modifies this
      ensures View() == old(View()).AddVote(e, vote, peer)
      ensures var n := old(View()); Sound(e, n) && n.halted.None? && Deliverable(n, VoteMsg(vote, peer)) ==>
                Kept(e.cfg, n, View())
    {
      ghost var n := View();
      hide Inv, Kept;
      if Sound(e, n) && n.halted.None? && Deliverable(n, VoteMsg(vote, peer)) {
        AddVoteToNodeKeeps(e.cfg, e, n, vote, peer);
      }
      if vote.height + 1 == height && vote.kind == Precommit {
        AddLastCommitVote(e, vote);
        return;
      }
      if vote.height != height {
        return;
      }
      var r := votes.AddVote(vote, peer);
      votes := r.votes;
      if !r.added {
        return;
      }
      match vote.kind {
        case Prevote => OnPrevote(e, vote.round);
        case Precommit => OnPrecommit(e, vote.round);
      }
    }

    method AddLastCommitVote(e: Env, vote: Vote)
      modifies this
      ensures View() == old(View()).AddLastCommitVote(e, vote)
    {
      if step != NEW_HEIGHT {
        return;
      }
      if lastCommit.None? {
        halted := Some(NilLastCommit);
        return;
      }
      var r := lastCommit.value.AddVote(vote);
      lastCommit := Some(r.votes);
      if r.added && e.cfg.skipTimeoutCommit && r.votes.HasAll() {
        EnterNewRound(e, height, 0);
      }
    }

    method OnPrevote(e: Env, r: int)
      modifies this
      ensures View() == old(View()).OnPrevote(e, r)
      ensures var n := old(View()); Sound(e, n) && n.halted.None? ==> Kept(e.cfg, n, View())
    {
      ghost var n := View();
      hide Inv, Kept, CastsPrevote, Precommitted;
      if Sound(e, n) && n.halted.None? {
        OnPrevoteKeeps(e.cfg, e, n, r);
      }
      hide Node.EnterNewRound, Node.EnterPrecommit, Node.EnterPrevoteWait, Node.EnterPrevote, Node.UnlockOn;
      hide Node.UpdateValid, HeightVoteSet.Maj23, HeightVoteSet.TwoThirdsAny;
      var polka := votes.Maj23(r, Prevote);
      if polka.Some? {
        OnPolka(e, r, polka.value);
      }
      if round < r && votes.TwoThirdsAny(r, Prevote) {
        EnterNewRound(e, height, r);
      } else if round == r && PREVOTE <= step {
        if polka.Some? && (View().IsProposalComplete() || polka.value.None?) {
          EnterPrecommit(e, height, r);
        } else if votes.TwoThirdsAny(r, Prevote) {
          EnterPrevoteWait(e, height, r);
        }
      } else if proposal.Some? && 0 <= proposal.value.polRound && proposal.value.polRound == r {
        if View().IsProposalComplete() {
          EnterPrevote(e, height, round);
        }
      }
    }

    method OnPolka(e: Env, r: int, polka: Option<BlockId>)
      modifies this`lockedRound, this`lockedBlock, this`lockedParts, this`validRound, this`validBlock, this`validParts
      modifies this`proposalBlock, this`proposalParts
      ensures View() == old(View()).UnlockOn(r, polka).UpdateValid(e, r, polka)
    {
      hide Node.UpdateValid;
      if lockedBlock.Some? && lockedRound < r <= round && !HashesTo(lockedBlock, polka) {
        Unlock();
      }
      UpdateValid(e, r, polka);
    }

    method UpdateValid(e: Env, r: int, polka: Option<BlockId>)
      modifies this`validRound, this`validBlock, this`validParts, this`proposalBlock, this`proposalParts
      ensures View() == old(View()).UpdateValid(e, r, polka)
    {
      hide Config.NewPartSet;
      if polka.Some? && validRound < r && r == round {
        if HashesTo(proposalBlock, polka) {
          SetValid(r);
        } else {
          proposalBlock := None;
        }
        if !HasHeader(proposalParts, polka) {
          proposalParts := Some(e.cfg.NewPartSet(polka));
        }
      }
    }

    method OnPrecommit(e: Env, r: int)
      modifies this
      ensures View() == old(View()).OnPrecommit(e, r)
      ensures var n := old(View()); Sound(e, n) && n.halted.None? && 0 <= r ==> Kept(e.cfg, n, View())
    {
      ghost var n := View();
      hide Inv, Kept, CastsPrevote, Precommitted;
      if Sound(e, n) && n.halted.None? && 0 <= r {
        OnPrecommitKeeps(e.cfg, e, n, r);
      }
      var h := height;
      var precommits := votes;
      var majority := precommits.Maj23(r, Precommit);
      if majority.Some? {
        EnterNewRound(e, h, r);
        EnterPrecommit(e, h, r);
        if majority.value.Some? {
          EnterCommit(e, h, r);
          if e.cfg.skipTimeoutCommit && precommits.HasAll(r, Precommit) {
            EnterNewRound(e, height, 0);
          }
        } else {
          EnterPrecommitWait(e, h, r);
        }
      } else if round <= r && precommits.TwoThirdsAny(r, Precommit) {
        EnterNewRound(e, h, r);
        EnterPrecommitWait(e, h, r);
      }
    }

    method HandleTimeout(e: Env, t: Timeout)
      modifies this
      ensures View() == old(View()).HandleTimeout(e, t)
      ensures var n := old(View()); Sound(e, n) && n.halted.None? && TimeoutOk(n, t) ==>
                Kept(e.cfg, n, View()) && VotesOnlyIn(n, View(), t.round)
    {
      TimeoutIsSound(e, View(), t);
      hide Sound, Kept, VotesOnlyIn, TimeoutOk, CastsPrevote, Precommitted;
      hide Node.EnterNewRound, Node.EnterPropose, Node.EnterPrevote, Node.EnterPrecommit;
      if t.height != height || t.round < round || (t.round == round && t.step < step) {
        return;
      }
      if t.step == NEW_HEIGHT {
        EnterNewRound(e, t.height, 0);
      } else if t.step == NEW_ROUND {
        EnterPropose(e, t.height, t.round);
      } else if t.step == PROPOSE {
        EnterPrevote(e, t.height, t.round);
      } else if t.step == PREVOTE_WAIT {
        EnterPrecommit(e, t.height, t.round);
      } else if t.step == PRECOMMIT_WAIT {
        EnterNextRound(e, t.height, t.round);
      } else {
        halted := Some(BadTimeoutStep);
      }
    }

    method EnterNextRound(e: Env, h: nat, r: int)
      modifies this
      ensures View() == old(View()).EnterPrecommit(e, h, r).EnterNewRound(e, h, r + 1)
    {
      hide Sound, Kept, Precommitted, Node.EnterPrecommit, Node.EnterNewRound;
      EnterPrecommit(e, h, r);
      EnterNewRound(e, h, r + 1);
    }

    method HandleTxsAvailable(e: Env)
      modifies this
      ensures View() == old(View()).HandleTxsAvailable(e)
      ensures var n := old(View()); Sound(e, n) && n.halted.None? ==> Kept(e.cfg, n, View())
    {
      ghost var n := View();
      hide Inv, Kept;
      if Sound(e, n) && n.halted.None? {
        TxsAvailableKeeps(e.cfg, e, n);
      }
      if round != 0 {
        return;
      }
      if step == NEW_HEIGHT {
        if !e.needProof(height) {
          ScheduleTimeout(Timeout(height, 0, NEW_ROUND));
        }
      } else if step == NEW_ROUND {
        EnterPropose(e, height, 0);
      }
    }

    /**
     * One turn of the receive routine. A state that satisfied the invariant satisfies it afterwards, and never steps
     * back.
     */
    method Handle(e: Env, ev: Event)
      requires ConfigOk(e.cfg) && Inv(e.cfg, View()) && Deliverable(View(), ev)
      modifies this
      ensures View() == old(View()).Handle(e, ev)
      ensures Inv(e.cfg, View()) && Progress(old(View()), View())
    {
      HandleKeeps(e.cfg, e, View(), ev);
      hide Inv;
      if halted.Some? {
        return;
      }
      match ev {
        case ProposalMsg(p, checked) => SetProposal(e, p, checked);
        case PartMsg(h, header, index, readable) => AddBlockPart(e, h, header, index, readable);
        case VoteMsg(vote, peer) => AddVote(e, vote, peer);
        case PeerMaj23Msg(h, r, kind, peer, b) =>
          if h == height {
            votes := votes.SetPeerMaj23(r, kind, peer, b);
          }
        case TimeoutMsg(t) => HandleTimeout(e, t);
        case TxsAvailable => HandleTxsAvailable(e);
      }
    }

    /**
     * The receive routine: any run from the first state on keeps the invariant, the votes cast and the order of steps.
     */
    method ReceiveRoutine(cfg: Config, inputs: seq<Input>)
      requires ConfigOk(cfg) && View() == Genesis(cfg, me) && AllAllowed(cfg, View(), inputs)
      modifies this
      ensures View() == Run(Genesis(cfg, me), inputs) && Inv(cfg, View())
      ensures forall k :: 0 <= k <= |inputs| ==> SameOrLater(Run(Genesis(cfg, me), inputs[..k]), View())
    {
      hide Inv, Genesis, Deliverable;
      assert inputs[..0] == [];
      for i := 0 to |inputs|
        invariant View() == Run(Genesis(cfg, me), inputs[..i])
      {
        PrefixKeeps(cfg, me, inputs, i);
        assert inputs[..i + 1][..i] == inputs[..i];
        match inputs[i] {
          case Local(e, ev) => Handle(e, ev);
          case Remote(vote) => log := log + [vote];
        }
      }
      assert inputs[..|inputs|] == inputs;
      PrefixKeeps(cfg, me, inputs, |inputs|);
      forall k | 0 <= k <= |inputs|
        ensures SameOrLater(Run(Genesis(cfg, me), inputs[..k]), View())
      {
        RunNeverGoesBack(cfg, me, inputs, k);
      }
    }
  }

  /** No step back in height, round or step, and no vote lost. */
  predicate SameOrLater(n: Node, n': Node) {
    Before(n.height, n.round, n.step, n'.height, n'.round, n'.step) && n.log <= n'.log
  }

  lemma PrefixKeeps(cfg: Config, me: Validator, inputs: seq<Input>, i: nat)
    requires ConfigOk(cfg) && AllAllowed(cfg, Genesis(cfg, me), inputs) && i <= |inputs|
    ensures Inv(cfg, Run(Genesis(cfg, me), inputs[..i]))
    ensures i < |inputs| ==> Allowed(cfg, Run(Genesis(cfg, me), inputs[..i]), inputs[i])
  {
    hide Inv, Genesis, Allowed;
    assert forall k :: 0 <= k < i ==> inputs[..i][..k] == inputs[..k];
    EveryRunKeeps(cfg, me, inputs[..i]);
  }
}
