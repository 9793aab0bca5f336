/**
 * Many nodes over one global log of cast votes. Honest nodes run the transitions of RoundStates on whatever cast votes,
 * proposals, parts and timeouts reach them, in any order; everybody else appends arbitrary votes.
 */
module Agreement {
  import opened Options
  import opened VotingPower
  import opened VoteSets
  import opened RoundStates
  import opened RoundStateInvariant
  import opened RoundStateSafety
  import opened RoundStateProgress

  /** `nodes` are the honest nodes, keyed by their validator key. A node's own copy of the log may be stale. */
  datatype Network = Network(nodes: map<Validator, Node>, log: seq<Vote>) {
    function View(v: Validator): Node
      requires v in nodes
    {
      nodes[v].(log := log)
    }
  }

  datatype Action = Honest(v: Validator, env: Env, event: Event) | Faulty(vote: Vote)

  ghost predicate Enabled(cfg: Config, net: Network, a: Action) {
    match a
    case Honest(v, e, ev) => v in net.nodes && e.cfg == cfg && Deliverable(net.View(v), ev)
    case Faulty(vote) => vote.validator !in net.nodes
  }

  function Step(net: Network, a: Action): Network {
    match a
    case Honest(v, e, ev) =>
      if v in net.nodes then
        var n := net.View(v).Handle(e, ev);
        Network(net.nodes[v := n], n.log)
      else net
    case Faulty(vote) => net.(log := net.log + [vote])
  }

  function Start(cfg: Config, honest: set<Validator>): Network {
    Network(map v | v in honest :: Genesis(cfg, v), [])
  }

  function Exec(net: Network, actions: seq<Action>): Network {
    if actions == [] then net else Step(Exec(net, actions[..|actions| - 1]), actions[|actions| - 1])
  }

  ghost predicate AllEnabled(cfg: Config, net: Network, actions: seq<Action>) {
    forall k :: 0 <= k < |actions| ==> Enabled(cfg, Exec(net, actions[..k]), actions[k])
  }

  /** Every node satisfies its invariant against the shared log. */
  ghost predicate NetInv(cfg: Config, honest: set<Validator>, net: Network) {
    && net.nodes.Keys == honest
    && forall v <- honest :: net.nodes[v].me == v && Inv(cfg, net.View(v))
  }

  lemma {:induction false} RemoteVotesKeep(cfg: Config, n: Node, log: seq<Vote>)
    requires Inv(cfg, n) && n.log <= log && forall i :: |n.log| <= i < |log| ==> log[i].validator != n.me
    ensures Inv(cfg, n.(log := log))
    decreases |log|
  {
    hide Inv;
    if log == n.log {
      assert n.(log := log) == n;
    } else {
      var before := log[..|log| - 1];
      RemoteVotesKeep(cfg, n, before);
      assert before + [log[|log| - 1]] == log;
      RemoteVoteKeeps(cfg, n.(log := before), log[|log| - 1]);
    }
  }

  lemma StepKeepsNetInv(cfg: Config, honest: set<Validator>, net: Network, a: Action)
    requires ConfigOk(cfg) && NetInv(cfg, honest, net) && Enabled(cfg, net, a)
    ensures NetInv(cfg, honest, Step(net, a)) && net.log <= Step(net, a).log
  {
    hide Inv;
    var net' := Step(net, a);
    if a.Honest? {
      HandleKeeps(cfg, a.env, net.View(a.v), a.event);
      assert net'.View(a.v) == net'.nodes[a.v];
    }
    forall w <- honest | a.Faulty? || w != a.v
      ensures net'.nodes[w].me == w && Inv(cfg, net'.View(w))
    {
      RemoteVotesKeep(cfg, net.View(w), net'.log);
      assert net'.View(w) == net.View(w).(log := net'.log);
    }
  }

  lemma {:induction false} EveryExecKeeps(cfg: Config, honest: set<Validator>, actions: seq<Action>)
    requires ConfigOk(cfg) && AllEnabled(cfg, Start(cfg, honest), actions)
    ensures NetInv(cfg, honest, Exec(Start(cfg, honest), actions))
  {
    if actions == [] {
      forall v <- honest ensures Inv(cfg, Start(cfg, honest).View(v)) {
        GenesisOk(cfg, v);
      }
    } else {
      hide NetInv;
      var before := actions[..|actions| - 1];
      assert forall k :: 0 <= k < |before| ==> before[..k] == actions[..k];
      EveryExecKeeps(cfg, honest, before);
      StepKeepsNetInv(cfg, honest, Exec(Start(cfg, honest), before), actions[|actions| - 1]);
    }
  }

  // ----- safety of the log --------------------------------------------------------------------

  /**
   * All that agreement needs: the log is well behaved for every honest validator, and faulty power is below one third.
   */
  ghost predicate SafeLog(cfg: Config, honest: set<Validator>, log: seq<Vote>) {
    && ConfigOk(cfg)
    && (forall v <- honest :: LogOk(cfg, v, log))
    && (forall h :: FaultyBelowThird(cfg.vals(h), honest))
  }

  lemma LockReleased(cfg: Config, log: seq<Vote>, i: nat, j: nat)
    requires i < |log| && j < |log| && LogOk(cfg, log[i].validator, log)
    requires log[i].kind == Precommit && log[i].block.Some?
    requires log[j].validator == log[i].validator && log[j].kind == Prevote && log[j].height == log[i].height
    requires log[i].round < log[j].round && log[j].block != log[i].block
    ensures i < j && Released(cfg, log[..j], log[i].height, log[i].block, log[i].round, log[j].round)
  {
    hide Released;
    assert log[i] in log[..j];
    assert Justified(cfg, log[i].validator, log[..j], log[j]);
  }

  /**
   * Lock justification: in every execution, an honest validator that precommitted a block and prevotes something else
   * in a later round does so after a prevote majority for something else, in a round in between, was cast.
   */
  lemma LockJustification(cfg: Config, honest: set<Validator>, actions: seq<Action>, i: nat, j: nat)
    requires ConfigOk(cfg) && AllEnabled(cfg, Start(cfg, honest), actions)
    requires var log := Exec(Start(cfg, honest), actions).log;
             && i < |log| && j < |log| && log[i].validator in honest && log[i].kind == Precommit && log[i].block.Some?
             && log[j].validator == log[i].validator && log[j].kind == Prevote && log[j].height == log[i].height
             && log[i].round < log[j].round && log[j].block != log[i].block
    ensures var log := Exec(Start(cfg, honest), actions).log;
            i < j && Released(cfg, log[..j], log[i].height, log[i].block, log[i].round, log[j].round)
  {
    hide Released, HeightOk, VotesOk, FieldsOk, StepsOk, LogOk, LockOk, HaltOk;
    EveryExecKeeps(cfg, honest, actions);
    var net := Exec(Start(cfg, honest), actions);
    assert Inv(cfg, net.View(net.log[i].validator));
    LockReleased(cfg, net.log, i, j);
  }

  lemma VoterIndex(log: seq<Vote>, h: nat, r: int, kind: VoteType, b: Option<BlockId>, v: Validator) returns (i: nat)
    requires v in Voters(log, h, r, kind, b)
    ensures i < |log| && log[i] == Vote(v, h, r, kind, b)
  {
    i :| i < |log| && log[i] == Vote(v, h, r, kind, b);
  }

  /** After a precommit majority for `b` in round `r`, every prevote majority of a later round is for `b`. */
  lemma {:induction false} LaterPolkasFollow(
    cfg: Config, honest: set<Validator>, log: seq<Vote>, h: nat, r: int, b: BlockId, k: nat, r': int,
    x: Option<BlockId>)
    requires SafeLog(cfg, honest, log) && k <= |log| && r < r'
    requires Majority(cfg.vals(h), log, h, r, Precommit, Some(b))
    requires Majority(cfg.vals(h), log[..k], h, r', Prevote, x)
    ensures x == Some(b)
    decreases k
  {
    if x != Some(b) {
      var v := QuorumsShareHonest(cfg.vals(h), honest, Voters(log, h, r, Precommit, Some(b)),
              Voters(log[..k], h, r', Prevote, x));
      hide FaultyBelowThird, LogOk, Voters;
      var i := VoterIndex(log, h, r, Precommit, Some(b), v);
      var j := VoterIndex(log[..k], h, r', Prevote, x, v);
      LockReleased(cfg, log, i, j);
      var r'', x' :| r < r'' <= r' && x' != Some(b) && Majority(cfg.vals(h), log[..j], h, r'', Prevote, x');
      LaterPolkasFollow(cfg, honest, log, h, r, b, j, r'', x');
      assert false;
    }
  }

  lemma HonestVoter(
    cfg: Config, honest: set<Validator>, log: seq<Vote>, h: nat, r: int, kind: VoteType, b: Option<BlockId>)
    returns (i: nat)
    requires SafeLog(cfg, honest, log) && Majority(cfg.vals(h), log, h, r, kind, b)
    ensures i < |log| && log[i].validator in honest && log[i] == Vote(log[i].validator, h, r, kind, b)
    ensures Justified(cfg, log[i].validator, log[..i], log[i])
  {
    var q := Voters(log, h, r, kind, b);
    var v := QuorumsShareHonest(cfg.vals(h), honest, q, q);
    i := VoterIndex(log, h, r, kind, b, v);
    assert LogOk(cfg, v, log);
  }

  lemma OrderedAgreement(
    cfg: Config, honest: set<Validator>, log: seq<Vote>, h: nat, r: int, b: BlockId, r': int, b': BlockId)
    requires SafeLog(cfg, honest, log) && r <= r'
    requires Majority(cfg.vals(h), log, h, r, Precommit, Some(b))
    requires Majority(cfg.vals(h), log, h, r', Precommit, Some(b'))
    ensures b == b'
  {
    if r == r' {
      var v := QuorumsShareHonest(cfg.vals(h), honest, Voters(log, h, r, Precommit, Some(b)),
              Voters(log, h, r, Precommit, Some(b')));
      hide FaultyBelowThird, LogOk, Voters;
      var i := VoterIndex(log, h, r, Precommit, Some(b), v);
      var j := VoterIndex(log, h, r, Precommit, Some(b'), v);
      SlotsUnique(cfg, v, log, i, j);
    } else {
      hide FaultyBelowThird, LogOk, Majority;
      var i := HonestVoter(cfg, honest, log, h, r', Precommit, Some(b'));
      LaterPolkasFollow(cfg, honest, log, h, r, b, i, r', Some(b'));
    }
  }

  /**
   * Agreement: no two precommit majorities of one height, in the same or different rounds, are for different blocks.
   */
  lemma Agreement(
    cfg: Config, honest: set<Validator>, actions: seq<Action>, h: nat, r: int, b: BlockId, r': int, b': BlockId)
    requires ConfigOk(cfg) && AllEnabled(cfg, Start(cfg, honest), actions)
    requires forall k :: FaultyBelowThird(cfg.vals(k), honest)
    requires var log := Exec(Start(cfg, honest), actions).log;
             && Majority(cfg.vals(h), log, h, r, Precommit, Some(b))
             && Majority(cfg.vals(h), log, h, r', Precommit, Some(b'))
    ensures b == b'
  {
    var net := Exec(Start(cfg, honest), actions);
    assert SafeLog(cfg, honest, net.log) by { ExecIsSafe(cfg, honest, actions); }
    hide Majority, FaultyBelowThird, SafeLog;
    if r <= r' {
      OrderedAgreement(cfg, honest, net.log, h, r, b, r', b');
    } else {
      OrderedAgreement(cfg, honest, net.log, h, r', b', r, b);
    }
  }

  lemma ExecIsSafe(cfg: Config, honest: set<Validator>, actions: seq<Action>)
    requires ConfigOk(cfg) && AllEnabled(cfg, Start(cfg, honest), actions)
    requires forall k :: FaultyBelowThird(cfg.vals(k), honest)
    ensures SafeLog(cfg, honest, Exec(Start(cfg, honest), actions).log)
  {
    hide FaultyBelowThird, HeightOk, VotesOk, FieldsOk, StepsOk, LogOk, LockOk, HaltOk;
    EveryExecKeeps(cfg, honest, actions);
  }

  /** No two honest nodes ever finalise different blocks at one height. */
  lemma NoConflictingDecisions(
    cfg: Config, honest: set<Validator>, actions: seq<Action>, v: Validator, w: Validator, h: nat)
    requires ConfigOk(cfg) && AllEnabled(cfg, Start(cfg, honest), actions) && v in honest && w in honest
    requires forall k :: FaultyBelowThird(cfg.vals(k), honest)
    requires var net := Exec(Start(cfg, honest), actions);
             && v in net.nodes && w in net.nodes && h in net.nodes[v].decided && h in net.nodes[w].decided
    ensures var net := Exec(Start(cfg, honest), actions); net.nodes[v].decided[h] == net.nodes[w].decided[h]
  {
    hide Majority, FaultyBelowThird, VotesOk, FieldsOk, StepsOk, LogOk, LockOk, HaltOk;
    var net := Exec(Start(cfg, honest), actions);
    EveryExecKeeps(cfg, honest, actions);
    assert HeightOk(cfg, net.View(v)) && HeightOk(cfg, net.View(w));
    var r :| Majority(cfg.vals(h), net.log, h, r, Precommit, Some(net.nodes[v].decided[h]));
    var r' :| Majority(cfg.vals(h), net.log, h, r', Precommit, Some(net.nodes[w].decided[h]));
    Agreement(cfg, honest, actions, h, r, net.nodes[v].decided[h], r', net.nodes[w].decided[h]);
  }

  /** A majority for a block vouches for its validity. */
  lemma MajorityIsValid(cfg: Config, honest: set<Validator>, log: seq<Vote>, h: nat, r: int, kind: VoteType, b: BlockId)
    requires SafeLog(cfg, honest, log) && Majority(cfg.vals(h), log, h, r, kind, Some(b))
    ensures cfg.valid(h, b)
  {
    hide SafeLog, Majority;
    var i := HonestVoter(cfg, honest, log, h, r, kind, Some(b));
  }

  /** No honest node panics, save on a stray precommit below an initial height greater than one. */
  lemma HonestNodesDoNotPanic(cfg: Config, honest: set<Validator>, actions: seq<Action>, v: Validator)
    requires ConfigOk(cfg) && AllEnabled(cfg, Start(cfg, honest), actions) && v in honest
    requires forall k :: FaultyBelowThird(cfg.vals(k), honest)
    ensures var net := Exec(Start(cfg, honest), actions);
            && v in net.nodes
            && (net.nodes[v].halted.None?
                || (net.nodes[v].halted == Some(NilLastCommit) && net.nodes[v].height == cfg.initialHeight
                    && 2 <= cfg.initialHeight))
  {
    hide Majority, FaultyBelowThird, HeightOk, FieldsOk, StepsOk, LogOk, LockOk;
    var net := Exec(Start(cfg, honest), actions);
    EveryExecKeeps(cfg, honest, actions);
    var n := net.View(v);
    assert Inv(cfg, n);
    if n.halted.Some? && n.halted.value.InvalidBlock? {
      var b := n.halted.value.block;
      var r, kind :| n.votes.Maj23(r, kind) == Some(Some(b));
      RecordedMajorityIsCast(n.votes, net.log, r, kind);
      ExecIsSafe(cfg, honest, actions);
      MajorityIsValid(cfg, honest, net.log, n.height, r, kind, b);
      assert false;
    }
  }

  /** A prevote majority in the round of a precommit majority is for the same block. */
  lemma PolkaMatchesCommit(
    cfg: Config, honest: set<Validator>, log: seq<Vote>, h: nat, r: int, b: BlockId, x: Option<BlockId>)
    requires SafeLog(cfg, honest, log)
    requires Majority(cfg.vals(h), log, h, r, Precommit, Some(b)) && Majority(cfg.vals(h), log, h, r, Prevote, x)
    ensures x == Some(b)
  {
    hide FaultyBelowThird, LogOk, Voters;
    var i := HonestVoter(cfg, honest, log, h, r, Precommit, Some(b));
    var v := QuorumsShareHonest(cfg.vals(h), honest, Voters(log[..i], h, r, Prevote, Some(b)),
            Voters(log, h, r, Prevote, x));
    var j := VoterIndex(log[..i], h, r, Prevote, Some(b), v);
    var k := VoterIndex(log, h, r, Prevote, x, v);
    SlotsUnique(cfg, v, log, j, k);
  }

  /** Against a safe log, what a recorded precommit majority leads to does not depend on anything else. */
  lemma SafeMajorityDecides(cfg: Config, honest: set<Validator>, e: Env, n: Node, r: int, b: BlockId)
    requires ConfigOk(cfg) && Inv(cfg, n) && SafeLog(cfg, honest, n.log) && e.cfg == cfg
    requires n.halted.None? && n.step < COMMIT && 0 <= r && n.votes.Maj23(r, Precommit) == Some(Some(b))
    ensures Decided(n, n.OnPrecommit(e, r), b) || Waiting(n, n.OnPrecommit(e, r), b)
    ensures n.lockedBlock == Some(b) || (n.proposalBlock == Some(b) && r <= n.round) ==>
              Decided(n, n.OnPrecommit(e, r), b)
  {
    hide Inv, Majority, SafeLog, Node.OnPrecommit, HeightVoteSet.Maj23;
    RecordsAreCast(cfg, n);
    MajorityIsValid(cfg, honest, n.log, n.height, r, Precommit, b);
    if n.votes.Maj23(r, Prevote).Some? {
      PolkaMatchesCommit(cfg, honest, n.log, n.height, r, b, n.votes.Maj23(r, Prevote).value);
    }
    MajorityDecides(cfg, e, n, r, b);
  }

  /** A precommit that was cast completes a majority for `b` when it reaches node `n`. */
  ghost predicate Completes(n: Node, vote: Vote, peer: Peer, b: BlockId) {
    && vote in n.log && vote.kind == Precommit && vote.height == n.height && 0 <= vote.round
    && n.votes.AddVote(vote, peer).added
    && n.votes.AddVote(vote, peer).votes.Maj23(vote.round, Precommit) == Some(Some(b))
  }

  /**
   * In every reachable state, delivering the precommit that completes a majority makes an honest node finalise the
   * block or wait for its parts in the commit step. It finalises if it is locked on the block, or has it as the
   * proposal of the majority's round or a later one.
   */
  lemma HonestNodesDecide(
    cfg: Config, honest: set<Validator>, actions: seq<Action>, v: Validator, e: Env, vote: Vote, peer: Peer, b: BlockId)
    requires ConfigOk(cfg) && AllEnabled(cfg, Start(cfg, honest), actions) && v in honest && e.cfg == cfg
    requires forall k :: FaultyBelowThird(cfg.vals(k), honest)
    requires v in Exec(Start(cfg, honest), actions).nodes
    requires var n := Exec(Start(cfg, honest), actions).View(v);
             n.halted.None? && n.step < COMMIT && Completes(n, vote, peer, b)
    ensures var net := Exec(Start(cfg, honest), actions);
            var a := Honest(v, e, VoteMsg(vote, peer));
            var n, n' := net.View(v), Step(net, a).View(v);
            && Enabled(cfg, net, a) && (Decided(n, n', b) || Waiting(n, n', b))
            && (n.lockedBlock == Some(b) || (n.proposalBlock == Some(b) && vote.round <= n.round) ==> Decided(n, n', b))
  {
    hide Inv, Majority, FaultyBelowThird, SafeLog, Node.OnPrecommit, HeightVoteSet.Maj23, HeightVoteSet.AddVote;
    var net := Exec(Start(cfg, honest), actions);
    var n := net.View(v);
    EveryExecKeeps(cfg, honest, actions);
    ExecIsSafe(cfg, honest, actions);
    HeightIsPositive(cfg, n);
    AddVoteHereKeeps(cfg, e, n, vote, peer);
    SafeMajorityDecides(cfg, honest, e, n.(votes := n.votes.AddVote(vote, peer).votes), vote.round, b);
  }

  /** In every reachable state, the last part of the block an honest node waits for makes it finalise that block. */
  lemma HonestNodesDecideLate(
    cfg: Config, honest: set<Validator>, actions: seq<Action>, v: Validator, e: Env, b: BlockId, index: nat)
    requires ConfigOk(cfg) && AllEnabled(cfg, Start(cfg, honest), actions) && v in honest && e.cfg == cfg
    requires forall k :: FaultyBelowThird(cfg.vals(k), honest)
    requires v in Exec(Start(cfg, honest), actions).nodes
    requires var n := Exec(Start(cfg, honest), actions).View(v);
             && Waiting(n, n, b)
             && var ps := n.proposalParts.value; index < ps.total && index !in ps.have && |ps.have| + 1 == ps.total
    ensures var net := Exec(Start(cfg, honest), actions);
            var a := Honest(v, e, PartMsg(net.View(v).height, b, index, true));
            Enabled(cfg, net, a) && Decided(net.View(v), Step(net, a).View(v), b)
  {
    hide Inv, Majority, FaultyBelowThird, SafeLog, Node.AddBlockPart, HeightVoteSet.Maj23;
    var net := Exec(Start(cfg, honest), actions);
    var n := net.View(v);
    EveryExecKeeps(cfg, honest, actions);
    ExecIsSafe(cfg, honest, actions);
    RecordsAreCast(cfg, n);
    MajorityIsValid(cfg, honest, n.log, n.height, n.commitRound, Precommit, b);
    LastPartDecides(cfg, e, n, b, index);
  }

  lemma HeightIsPositive(cfg: Config, n: Node)
    requires ConfigOk(cfg) && Inv(cfg, n)
    ensures 1 <= n.height
  {
    hide VotesOk, FieldsOk, StepsOk, LogOk, LockOk, HaltOk, Decision, LastCommitOk;
  }

  lemma RecordsAreCast(cfg: Config, n: Node)
    requires Inv(cfg, n)
    ensures forall r, kind :: n.votes.Maj23(r, kind).Some? ==>
              Majority(cfg.vals(n.height), n.log, n.height, r, kind, n.votes.Maj23(r, kind).value)
  {
    hide HeightOk, FieldsOk, StepsOk, LogOk, LockOk, HaltOk, Majority;
    forall r, kind | n.votes.Maj23(r, kind).Some?
      ensures Majority(cfg.vals(n.height), n.log, n.height, r, kind, n.votes.Maj23(r, kind).value)
    {
      RecordedMajorityIsCast(n.votes, n.log, r, kind);
    }
  }
}
