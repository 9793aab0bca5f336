/**
 * What holds in every reachable state of a node: field invariants, step discipline, and the justification of every vote
 * it casts. The theorems are at the end of the module.
 */
module RoundStateInvariant {
  import opened Options
  import opened VotingPower
  import opened VoteSets
  import opened RoundStates

  ghost predicate ConfigOk(cfg: Config) {
    1 <= cfg.initialHeight && forall h :: cfg.vals(h).Valid()
  }

  // ----- the vote log ------------------------------------------------------------------------

  /** Some prevote majority for something other than `b`, in a round of (from, upto]. */
  ghost predicate Released(cfg: Config, log: seq<Vote>, h: nat, b: Option<BlockId>, from: int, upto: int) {
    exists r, x :: from < r <= upto && x != b && Majority(cfg.vals(h), log, h, r, Prevote, x)
  }

  ghost predicate IsLockVote(me: Validator, v: Vote, h: nat) {
    v.validator == me && v.kind == Precommit && v.height == h && v.block.Some?
  }

  /** Why `me` was entitled to cast `v` after the votes in `log`. */
  ghost predicate Justified(cfg: Config, me: Validator, log: seq<Vote>, v: Vote) {
    && (v.block.Some? ==> cfg.valid(v.height, v.block.value))
    && (v.kind == Precommit && v.block.Some? ==> Majority(cfg.vals(v.height), log, v.height, v.round, Prevote, v.block))
    && (v.kind == Prevote ==>
          forall p <- log :: IsLockVote(me, p, v.height) && p.round < v.round && p.block != v.block ==>
            Released(cfg, log, v.height, p.block, p.round, v.round))
  }

  function VoteStep(kind: VoteType): Step {
    if kind == Prevote then PREVOTE else PRECOMMIT
  }

  /** Lexicographic order on height, round and step. */
  predicate Before(h: nat, r: int, s: Step, h': nat, r': int, s': Step) {
    h < h' || (h == h' && (r < r' || (r == r' && s <= s')))
  }

  predicate CastAfter(v: Vote, w: Vote) {
    Before(v.height, v.round, VoteStep(v.kind) + 1, w.height, w.round, VoteStep(w.kind))
  }

  /** The votes of `me` strictly advance in height, round and type, and each was justified when it was cast. */
  ghost predicate LogOk(cfg: Config, me: Validator, log: seq<Vote>) {
    && (forall i, j :: 0 <= i < j < |log| && log[i].validator == me && log[j].validator == me ==>
        CastAfter(log[i], log[j]))
    && (forall i :: 0 <= i < |log| && log[i].validator == me ==> Justified(cfg, me, log[..i], log[i]))
  }

  /** One vote of `me` per height, round and type. */
  lemma SlotsUnique(cfg: Config, me: Validator, log: seq<Vote>, i: nat, j: nat)
    requires LogOk(cfg, me, log) && i < |log| && j < |log| && log[i].validator == me && log[j].validator == me
    requires log[i].height == log[j].height && log[i].round == log[j].round && log[i].kind == log[j].kind
    ensures i == j
  {
    hide Justified;
  }

  lemma ReleasedGrows(
    cfg: Config, log: seq<Vote>, log': seq<Vote>, h: nat, b: Option<BlockId>, from: int, upto: int, upto': int)
    requires Released(cfg, log, h, b, from, upto) && upto <= upto' && forall v <- log :: v in log'
    ensures Released(cfg, log', h, b, from, upto')
  {
    var r, x :| from < r <= upto && x != b && Majority(cfg.vals(h), log, h, r, Prevote, x);
    MajorityGrows(cfg.vals(h), log, log', h, r, Prevote, x);
  }

  lemma LogAppend(cfg: Config, me: Validator, log: seq<Vote>, v: Vote)
    requires LogOk(cfg, me, log)
    requires v.validator == me ==> Justified(cfg, me, log, v) && forall w <- log :: w.validator == me ==>
               CastAfter(w, v)
    ensures LogOk(cfg, me, log + [v])
  {
    var log' := log + [v];
    forall i | 0 <= i < |log'| && log'[i].validator == me
      ensures Justified(cfg, me, log'[..i], log'[i])
    {
      assert log'[..i] == log[..i];
      assert log[..|log|] == log;
    }
  }

  // ----- the node ----------------------------------------------------------------------------

  predicate PartsOf(parts: Option<PartSet>, b: Option<BlockId>) {
    HasHeader(parts, b) && parts.value.Complete() && parts.value.Valid()
  }

  /** Locked and Valid fields: all unset, or all set and backed by a recorded prevote majority of a past round. */
  ghost predicate Backed(n: Node, r: int, b: Option<BlockId>, parts: Option<PartSet>) {
    if b.None? then r == -1 && parts.None?
    else 0 <= r <= n.round && PartsOf(parts, b) && n.votes.Maj23(r, Prevote) == Some(b)
  }

  predicate TimeoutOk(n: Node, t: Timeout) {
    && t.step in {NEW_HEIGHT, NEW_ROUND, PROPOSE, PREVOTE_WAIT, PRECOMMIT_WAIT}
    && 0 <= t.round && t.height <= n.height && (t.height == n.height ==> t.round <= n.round)
  }

  /** The fields a node fixes when it enters a height. */
  ghost predicate HeightOk(cfg: Config, n: Node) {
    && cfg.initialHeight <= n.height
    && n.stateHeight == (if n.height == cfg.initialHeight then 0 else n.height - 1)
    && (forall h :: h in n.decided <==> cfg.initialHeight <= h < n.height)
    && (forall h <- n.decided :: Decision(cfg, n.log, h, n.decided[h]))
    && LastCommitOk(cfg, n)
  }

  /** From the second height on, LastCommit holds the precommit majority that decided the previous one. */
  ghost predicate LastCommitOk(cfg: Config, n: Node) {
    && (n.lastCommit.None? <==> n.height == cfg.initialHeight)
    && (n.lastCommit.Some? ==>
          var c := n.lastCommit.value;
          && c.Valid() && c.KeptIn(n.log) && c.kind == Precommit && c.height + 1 == n.height
          && n.height - 1 in n.decided && c.maj23 == Some(Some(n.decided[n.height - 1])))
  }

  /** Some round holds a precommit majority for the block. */
  ghost predicate Decision(cfg: Config, log: seq<Vote>, h: nat, b: BlockId) {
    exists r :: Majority(cfg.vals(h), log, h, r, Precommit, Some(b))
  }

  lemma DecisionGrows(cfg: Config, log: seq<Vote>, log': seq<Vote>, h: nat, b: BlockId)
    requires Decision(cfg, log, h, b) && log <= log'
    ensures Decision(cfg, log', h, b)
  {
    var r :| Majority(cfg.vals(h), log, h, r, Precommit, Some(b));
    MajorityGrows(cfg.vals(h), log, log', h, r, Precommit, Some(b));
  }

  ghost predicate VotesOk(cfg: Config, n: Node) {
    && n.votes.height == n.height && n.votes.vals == cfg.vals(n.height) && n.votes.Valid(n.log)
    && 0 <= n.round <= n.votes.round <= n.round + 1
    && NEW_HEIGHT <= n.step <= COMMIT && (n.step == NEW_HEIGHT ==> n.round == 0)
  }

  ghost predicate FieldsOk(cfg: Config, n: Node) {
    && Backed(n, n.lockedRound, n.lockedBlock, n.lockedParts)
    && Backed(n, n.validRound, n.validBlock, n.validParts)
    && (n.lockedBlock.Some? ==> cfg.valid(n.height, n.lockedBlock.value))
    && ProposalOk(n)
    && -1 <= n.commitRound
    && (0 <= n.commitRound ==> CommittedBlock(n).Some?)
    && (n.step == COMMIT ==> 0 <= n.commitRound)
    && forall t <- n.timeouts :: TimeoutOk(n, t)
  }

  /** The proposal block is the one its complete part set names. */
  predicate ProposalOk(n: Node) {
    && (n.proposalParts.Some? ==> n.proposalParts.value.Valid())
    && (n.proposalBlock.Some? ==> PartsOf(n.proposalParts, n.proposalBlock))
  }

  /** The block with a recorded precommit majority in the commit round. */
  ghost function CommittedBlock(n: Node): Option<BlockId> {
    match n.votes.Maj23(n.commitRound, Precommit)
    case Some(id) => id
    case None => None
  }

  /** A vote of the node never lies ahead of its height, round and step. */
  ghost predicate StepsOk(n: Node) {
    forall v <- n.log :: v.validator == n.me ==> Before(v.height, v.round, VoteStep(v.kind), n.height, n.round, n.step)
  }

  /** The node is still locked on what it last precommitted, or a later prevote majority released it. */
  ghost predicate LockOk(cfg: Config, n: Node) {
    forall p <- n.log :: IsLockVote(n.me, p, n.height) ==> Held(cfg, n, p)
  }

  ghost predicate Held(cfg: Config, n: Node, p: Vote) {
    (n.lockedBlock == p.block && p.round <= n.lockedRound) || Released(cfg, n.log, n.height, p.block, p.round, n.round)
  }

  /** The only panics left: an invalid block got a majority, or a stray precommit met the initial height. */
  ghost predicate HaltOk(cfg: Config, n: Node) {
    match n.halted
    case None => true
    case Some(InvalidBlock(b)) => !cfg.valid(n.height, b) && exists r, kind :: n.votes.Maj23(r, kind) == Some(Some(b))
    case Some(NilLastCommit) => n.height == cfg.initialHeight && n.step == NEW_HEIGHT && 2 <= cfg.initialHeight
    case _ => false
  }

  ghost predicate Inv(cfg: Config, n: Node) {
    HeightOk(cfg, n) && VotesOk(cfg, n) && FieldsOk(cfg, n) && StepsOk(n)
    && LogOk(cfg, n.me, n.log) && LockOk(cfg, n) && HaltOk(cfg, n)
  }

  /** Height, round and step never decrease, and the log grows by own votes only. */
  ghost predicate Progress(n: Node, n': Node) {
    && Before(n.height, n.round, n.step, n'.height, n'.round, n'.step)
    && n'.me == n.me && n.log <= n'.log
    && forall i :: |n.log| <= i < |n'.log| ==> n'.log[i].validator == n.me
  }

  // ----- primitive moves ----------------------------------------------------------------------

  /** Fields that moving within a height leaves alone. */
  predicate SameHeight(n: Node, n': Node) {
    && n'.me == n.me && n'.height == n.height && n'.stateHeight == n.stateHeight && n'.decided == n.decided
    && n'.lastCommit == n.lastCommit
  }

  predicate SameLock(n: Node, n': Node) {
    n'.lockedRound == n.lockedRound && n'.lockedBlock == n.lockedBlock && n'.lockedParts == n.lockedParts
  }

  predicate SameValid(n: Node, n': Node) {
    n'.validRound == n.validRound && n'.validBlock == n.validBlock && n'.validParts == n.validParts
  }

  lemma LockMoves(cfg: Config, n: Node, n': Node)
    requires LockOk(cfg, n) && n'.me == n.me && n'.height == n.height && n'.log == n.log && SameLock(n, n')
    requires n.round <= n'.round
    ensures LockOk(cfg, n')
  {
    forall p <- n'.log | IsLockVote(n'.me, p, n'.height)
      ensures Held(cfg, n', p)
    {
      assert Held(cfg, n, p);
      if Released(cfg, n.log, n.height, p.block, p.round, n.round) {
        ReleasedGrows(cfg, n.log, n.log, n.height, p.block, p.round, n.round, n'.round);
      }
    }
  }

  lemma StepsMove(n: Node, n': Node)
    requires StepsOk(n) && n'.me == n.me && n'.log == n.log
    requires Before(n.height, n.round, n.step, n'.height, n'.round, n'.step)
    ensures StepsOk(n')
  {
  }

  lemma BackedMoves(n: Node, n': Node, r: int, b: Option<BlockId>, parts: Option<PartSet>)
    requires Backed(n, r, b, parts) && Extends(n.votes, n'.votes) && n.round <= n'.round
    ensures Backed(n', r, b, parts)
  {
  }

  lemma HeightMoves(cfg: Config, n: Node, n': Node)
    requires HeightOk(cfg, n) && SameHeight(n, n') && n.log <= n'.log
    ensures HeightOk(cfg, n')
  {
    hide Decision, VoteSet.Valid, VoteSet.KeptIn;
    if n.lastCommit.Some? {
      KeptGrows(n.lastCommit.value, n.log, n'.log);
    }
    forall h <- n'.decided
      ensures Decision(cfg, n'.log, h, n'.decided[h])
    {
      DecisionGrows(cfg, n.log, n'.log, h, n.decided[h]);
    }
  }

  lemma VotesMove(cfg: Config, n: Node, n': Node)
    requires VotesOk(cfg, n) && n'.height == n.height && n'.votes == n.votes && n'.round == n.round
    requires NEW_HEIGHT <= n'.step <= COMMIT && (n'.step == NEW_HEIGHT ==> n'.round == 0) && n.log <= n'.log
    ensures VotesOk(cfg, n')
  {
    KnownGrows(n.votes, n.log, n'.log);
  }

  /** Moving to a later round or step, with other proposal fields and more votes. */
  lemma MoveKeeps(cfg: Config, n: Node, n': Node)
    requires Inv(cfg, n) && n.halted.None? && n'.halted.None?
    requires SameHeight(n, n') && SameLock(n, n') && SameValid(n, n') && n'.log == n.log
    requires n'.commitRound == n.commitRound
    requires Before(n.height, n.round, n.step, n'.height, n'.round, n'.step) && (n'.step == COMMIT ==> n.step == COMMIT)
    requires VotesOk(cfg, n') && Extends(n.votes, n'.votes) && ProposalOk(n')
    requires forall t <- n'.timeouts :: TimeoutOk(n', t)
    ensures Inv(cfg, n')
  {
    hide HeightOk, VotesOk, StepsOk, LogOk, LockOk;
    HeightMoves(cfg, n, n');
    LockMoves(cfg, n, n');
    StepsMove(n, n');
    BackedMoves(n, n', n.lockedRound, n.lockedBlock, n.lockedParts);
    BackedMoves(n, n', n.validRound, n.validBlock, n.validParts);
  }

  /** A prevote majority for `x` in round `r` moves the lock to `x`, or releases a lock on something else. */
  lemma LockChanges(cfg: Config, n: Node, n': Node, r: int, x: Option<BlockId>)
    requires LockOk(cfg, n) && VotesOk(cfg, n) && n'.me == n.me && n'.height == n.height && n'.log == n.log
    requires n'.round == n.round
    requires n.votes.Maj23(r, Prevote) == Some(x) && n.lockedRound <= r <= n.round
    requires n.lockedBlock.Some? && n.lockedBlock != x ==> n.lockedRound < r
    requires (n'.lockedBlock == x && n'.lockedRound == r) || (n'.lockedBlock.None? && n.lockedBlock != x)
    ensures LockOk(cfg, n')
  {
    RecordedMajorityIsCast(n.votes, n.log, r, Prevote);
    forall p <- n'.log | IsLockVote(n'.me, p, n'.height)
      ensures Held(cfg, n', p)
    {
      assert Held(cfg, n, p);
      if n.lockedBlock == p.block && p.round <= n.lockedRound && p.block != x {
        assert Majority(cfg.vals(n.height), n.log, n.height, r, Prevote, x);
        assert Released(cfg, n.log, n.height, p.block, p.round, n.round);
      }
    }
  }

  lemma LockKeeps(cfg: Config, n: Node, n': Node, r: int, x: Option<BlockId>)
    requires Inv(cfg, n) && n.halted.None?
    requires n' == n.(lockedRound := n'.lockedRound, lockedBlock := n'.lockedBlock, lockedParts := n'.lockedParts)
    requires n.votes.Maj23(r, Prevote) == Some(x) && n.lockedRound <= r <= n.round && 0 <= r
    requires (x.Some? && n'.lockedBlock == x && n'.lockedRound == r && cfg.valid(n.height, x.value)
              && PartsOf(n'.lockedParts, x))
          || (n.lockedBlock != x && n' == n.Unlock())
    ensures Inv(cfg, n')
  {
    hide HeightOk, VotesOk, StepsOk, LogOk, LockOk;
    HeightMoves(cfg, n, n');
    VotesMove(cfg, n, n') by { StepBounds(cfg, n); }
    StepsMove(n, n');
    LockChanges(cfg, n, n', r, x);
  }

  // ----- casting a vote -----------------------------------------------------------------------

  lemma {:induction false} LockGrows(cfg: Config, n: Node, v: Vote)
    requires LockOk(cfg, n)
    requires IsLockVote(n.me, v, n.height) ==> n.lockedBlock == v.block && v.round <= n.lockedRound
    ensures LockOk(cfg, n.(log := n.log + [v]))
  {
    var n' := n.(log := n.log + [v]);
    forall p <- n'.log | IsLockVote(n'.me, p, n'.height)
      ensures Held(cfg, n', p)
    {
      if p != v {
        assert p in n.log && Held(cfg, n, p);
        if Released(cfg, n.log, n.height, p.block, p.round, n.round) {
          ReleasedGrows(cfg, n.log, n'.log, n.height, p.block, p.round, n.round, n.round);
        }
      }
    }
  }

  /** A vote of somebody else reaches the log. */
  lemma RemoteVoteKeeps(cfg: Config, n: Node, v: Vote)
    requires Inv(cfg, n) && v.validator != n.me
    ensures Inv(cfg, n.(log := n.log + [v]))
  {
    hide LogOk, LockOk, HeightOk, VotesOk;
    var n' := n.(log := n.log + [v]);
    StepBounds(cfg, n);
    LogAppend(cfg, n.me, n.log, v);
    LockGrows(cfg, n, v);
    VotesMove(cfg, n, n');
    HeightMoves(cfg, n, n');
  }

  /** Casting a justified vote for the current round and entering its step. */
  lemma CastKeeps(cfg: Config, e: Env, n: Node, kind: VoteType, b: Option<BlockId>)
    requires Inv(cfg, n) && n.halted.None? && n.step < VoteStep(kind)
    requires Justified(cfg, n.me, n.log, Vote(n.me, n.height, n.round, kind, b))
    requires kind == Precommit && b.Some? ==> n.lockedBlock == b && n.lockedRound == n.round
    ensures var n' := n.SignAddVote(e, kind, b).MoveTo(n.round, VoteStep(kind)); Inv(cfg, n') && Progress(n, n')
  {
    hide Inv, Justified;
    CastProgress(e, n, kind, b);
    hide Progress;
    if n.SignAddVote(e, kind, b) == n {
      CastSkipped(cfg, n, kind);
    } else {
      CastFresh(cfg, n, kind, b);
    }
  }

  lemma CastProgress(e: Env, n: Node, kind: VoteType, b: Option<BlockId>)
    requires n.step < VoteStep(kind)
    ensures Progress(n, n.SignAddVote(e, kind, b).MoveTo(n.round, VoteStep(kind)))
  {
  }

  lemma CastSkipped(cfg: Config, n: Node, kind: VoteType)
    requires Inv(cfg, n) && n.halted.None? && n.step < VoteStep(kind)
    ensures Inv(cfg, n.MoveTo(n.round, VoteStep(kind)))
  {
    hide HeightOk, VotesOk, StepsOk, LogOk, LockOk;
    var n' := n.MoveTo(n.round, VoteStep(kind));
    VotesMove(cfg, n, n');
    MoveKeeps(cfg, n, n');
  }

  lemma StepBounds(cfg: Config, n: Node)
    requires VotesOk(cfg, n)
    ensures 0 <= n.round && NEW_HEIGHT <= n.step <= COMMIT && (n.step == NEW_HEIGHT ==> n.round == 0)
  {
  }

  lemma CastFresh(cfg: Config, n: Node, kind: VoteType, b: Option<BlockId>)
    requires Inv(cfg, n) && n.halted.None? && n.step < VoteStep(kind)
    requires Justified(cfg, n.me, n.log, Vote(n.me, n.height, n.round, kind, b))
    requires kind == Precommit && b.Some? ==> n.lockedBlock == b && n.lockedRound == n.round
    ensures Inv(cfg, n.(log := n.log + [Vote(n.me, n.height, n.round, kind, b)], step := VoteStep(kind)))
  {
    hide LogOk, LockOk, Justified, HeightOk, VotesOk;
    var v := Vote(n.me, n.height, n.round, kind, b);
    var n1 := n.(log := n.log + [v]);
    var n' := n1.(step := VoteStep(kind));
    LogAppend(cfg, n.me, n.log, v);
    LockGrows(cfg, n, v);
    LockMoves(cfg, n1, n');
    VotesMove(cfg, n, n');
    HeightMoves(cfg, n, n');
  }
}
