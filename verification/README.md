# Models and proofs for CometBFT

A Dafny 4.11 project that models the parts of CometBFT where mistakes are hard to see and proves what they promise.
`dafny verify dfyconfig.toml` checks everything. Each model takes the form of its source: pure checks are functions,
loops and objects that update fields are methods and classes whose contracts tie the new state to functions of the old.

**Consensus.** `RoundStates` gives every transition of the round state as a function; `ConsensusState` is the class
that updates the fields in place and computes the same. `RoundStateInvariant` and `RoundStateSafety` prove the node
invariant, the step discipline and the absence of panics over all runs. `Agreement` puts many nodes over one global,
ordered log of cast votes, with faulty validators that append anything, and proves agreement. The lock rule is the
code's: a node prevotes its locked block and unlocks on any newer prevote majority for something else, nil included.
`RoundStateProgress` adds that a node decides as soon as it can, and `RoundStateEffects` which vote, lock, round and
timeout each step must lead to. `VoteSets` and `VotingPower` are the weighted tallies
below it, `Ticker` the timeout filter beside it.

**Light client.** `CommitVerification` models both ways of checking a commit, `LightVerifier` the verifier, and
`LightClient` the bisection, the sequential mode and the replacement of providers. Providers answer arbitrarily, but
return a block of the height they were asked for, as `light/provider/http/http.go:81-85` enforces.

**Crash safety.** `CrashRecovery` writes one durable action at a time and may crash between any two; `PrivValidator`
is the double-sign guard with crashes and reloads; `Wal` and `WalSearch` are the log format, its repair and its search.

**Bookkeeping.** `PeerState` (bit arrays, some of them shared), `Mempool` and `TxCache`, `BlockPool` (every section
under the lock is a step, in any order), `EvidencePool` and `EvidenceKeys`.

Hashes, signatures, protobuf and CRC are parameters: injective, unforgeable or a lawful codec where a statement needs
it, and arbitrary otherwise. Clocks, the network, the application and the mempool connection are parameters as well.

Where the code and its comments disagree, the models follow the code:

- Batch verification of commits is said to behave as the one-by-one check; it does for acceptance, and for errors exactly
  as `BatchAnswersAsSingle` says.
- `ReapMaxTxs` may return one transaction more than asked for.
- `findNextEntryMatching` has no test for the end of its list; it stays on it exactly for answers in list order.
- A chain whose initial height is above 1 panics in the handshake if it crashed between saving its first block and the
  state after it, and on a precommit of the height before the initial one. For initial height 1 both are impossible.
- `ValidateTrustLevel` multiplies 64-bit numbers without a check, and so refuses some levels in its range
  (`TrustLevelExactly`).
- A failed `findNewPrimary` can leave a provider both primary and witness (`OnlyWitnessPromoted`).
- An update of the evidence pool can keep expired evidence, because it prunes only beyond the height at which the oldest
  item expires, and a second late (`ExpiredItemKept`).

## Model

| member | source | states |
|---|---|---|
| `VotingPower.ThresholdIsTwoThirds` | types/vote_set.go:452-459 | The integer tests `sum > total*2/3` and `sum >= total*2/3+1` both mean exactly "more than two thirds of the power", floor included. |
| `VotingPower.QuorumsShareHonest` | types/vote_set.go:299-327 | With faulty power below one third, any two weighted quorums share an honest validator of the set. |
| `VotingPower.HonestAboveThird` | light/verifier.go:55-64 | A set of signers with at least a third of the power contains an honest validator. |
| `VoteSets.AddVoteKeeps` | types/vote_set.go:168-327 | Adding any vote, conflicting ones included, keeps the total and every per-block tally equal to the power of the recorded voters, keeps a majority recorded exactly when some block reached the quorum, never loses a recorded majority, and keeps only votes it was given. |
| `VoteSets.FirstVoteCounts` | types/vote_set.go:257-327 | The first vote of a member for the slot is added and counted, for its block and in total. |
| `VoteSets.AddedExactly` | types/vote_set.go:168-253 | A vote is added exactly if it is for the slot, by a member, and either the first of its voter or a conflicting one for a block some peer claims a majority for. |
| `VoteSets.SecondVoteCounts` | types/vote_set.go:257-327 | A conflicting vote that is let in counts for its block and not again in total. |
| `VoteSets.MajorityIsRecorded` | types/vote_set.go:299-327 | As soon as a block has more than two thirds of the power a majority is recorded. |
| `VoteSets.PeerClaimCounts` | types/vote_set.go:334-367 | The first claim of a peer opens its block to conflicting votes, a later one does nothing, and neither touches a tally. |
| `VoteSets.SetPeerMaj23Valid` | types/vote_set.go:334-367 | A peer claim of a majority changes no tally and no majority. |
| `VoteSets.MajorityIsTwoThirdsAny` | types/vote_set.go:430-482 | A set with a majority for one block also has two thirds of anything. |
| `VoteSets.MajorityIsCast` | types/vote_set.go:472-482 | A recorded majority is real: voters with more than two thirds of the power cast that very vote in the log. |
| `VoteSets.HeightVoteSet.POLRound` | consensus/types/height_vote_set.go:172-183 | The result is the last round up to the given one with a recorded prevote majority, or -1. |
| `VoteSets.HeightAddVoteKeeps` | consensus/types/height_vote_set.go:133-156 | Adding a vote of any round, also of an unexpected one a peer may open at most twice, keeps every slot valid for its own round and type and loses no majority. |
| `VoteSets.VoteReachesItsSlot` | consensus/types/height_vote_set.go:133-156 | A vote goes to the slot of its round and type and changes no other; it is refused exactly if its round is unknown and the peer has opened two, or the slot refuses it. |
| `VoteSets.HeightFirstVoteCounts` | consensus/types/height_vote_set.go:133-156 | The first vote of a member in a slot whose round is tracked, or that the peer may still open, is added, and raises the power of the slot and of its block by its weight. |
| `VoteSets.SetRoundTracks` | consensus/types/height_vote_set.go:97-113 | Exactly the rounds up to the new one are tracked besides the old ones, and no slot changes. |
| `VoteSets.SetRoundKeeps` | consensus/types/height_vote_set.go:97-129 | Tracking further rounds succeeds unless it goes back, and loses no majority. |
| `VoteSets.HeightPeerMaj23Keeps` | consensus/types/height_vote_set.go:204-219 | A peer claim about any round keeps every slot valid and loses no majority. |
| `RoundStateInvariant.SlotsUnique` | consensus/state.go:2355-2403 | In a well-behaved log a validator has one vote per height, round and type. |
| `RoundStateSafety.PrevoteJustified` | consensus/state.go:1344-1402 | The prevote a node chooses is valid, and differs from an earlier precommit of its own only after a later prevote majority for something else. |
| `RoundStateSafety.EnterNewRoundKeeps` | consensus/state.go:1052-1114 | Entering a round keeps the whole node invariant, never steps back, and never meets the round-regression panic of the vote sets. |
| `RoundStateSafety.EnterProposeKeeps` | consensus/state.go:1139-1197 | The propose step, with the prevote it may lead to, keeps the node invariant and never steps back. |
| `RoundStateSafety.EnterPrevoteKeeps` | consensus/state.go:1318-1342 | The prevote step keeps the node invariant: the vote cast is justified, for the current round, and the first of its kind there. |
| `RoundStateSafety.EnterPrevoteWaitKeeps` | consensus/state.go:1405-1433 | With two thirds of any prevotes the quorum panic cannot occur and the invariant is kept. |
| `RoundStateSafety.EnterPrecommitKeeps` | consensus/state.go:1441-1560 | Relock, lock, unlock and nil precommit all keep the invariant: the lock follows a prevote majority of the round, and a lock given up was released by one. |
| `RoundStateSafety.EnterPrecommitWaitKeeps` | consensus/state.go:1563-1592 | With two thirds of any precommits the quorum panic cannot occur and the invariant is kept. |
| `RoundStateSafety.EnterCommitKeeps` | consensus/state.go:1595-1655 | Committing a majority block, whether it is locked, proposed or still to be fetched, keeps the invariant. |
| `RoundStateSafety.TryFinalizeKeeps` | consensus/state.go:1658-1683 | Finalisation is attempted only with the committed block at hand, and keeps the invariant. |
| `RoundStateSafety.FinalizeOutcome` | consensus/state.go:1686-1807 | With the committed block complete, every panic of finalizeCommit and updateToState but the invalid-block one is unreachable, and the result is the next height with that block decided. |
| `RoundStateSafety.NewHeightKeeps` | consensus/state.go:647-756 | The state after a height satisfies the invariant: no lock, no valid block, LastCommit holding the deciding majority. |
| `RoundStateSafety.SetProposalKeeps` | consensus/state.go:1900-1947 | Accepting a proposal keeps the invariant. |
| `RoundStateSafety.AddBlockPartKeeps` | consensus/state.go:1952-2028 | A block part keeps the invariant; the proposal block always matches its complete part set. |
| `RoundStateSafety.HandleCompleteKeeps` | consensus/state.go:2030-2063 | A complete proposal leads to prevote, precommit or finalisation within the invariant. |
| `RoundStateSafety.OnPrevoteKeeps` | consensus/state.go:2240-2317 | Unlocking, updating the valid block, round skip and the step changes after a prevote keep the invariant. |
| `RoundStateSafety.OnPrecommitKeeps` | consensus/state.go:2319-2345 | Commit, round skip and precommit wait after a precommit keep the invariant. |
| `RoundStateSafety.AddLastCommitKeeps` | consensus/state.go:2132-2163 | A late precommit of the previous height is recorded without disturbing the majority of LastCommit. |
| `RoundStateSafety.AddVoteToNodeKeeps` | consensus/state.go:2117-2352 | Every vote cast by anybody may be delivered at any time. |
| `RoundStateSafety.HandleTimeoutKeeps` | consensus/state.go:966-1013 | Every scheduled timeout may fire at any time, and whatever the node then signs is for the round of the timeout. |
| `RoundStateSafety.HandleKeeps` | consensus/state.go:784-964 | One turn of the receive routine keeps the node invariant and loses no majority. |
| `RoundStateSafety.EveryRunKeeps` | consensus/state.go:784-872 | The node invariant holds in every state reachable from genesis: Locked and Valid fields all set or all unset and backed by a recorded prevote majority of a past round, the proposal block matching its parts, a commit round only with a non-nil precommit majority. |
| `RoundStateSafety.RunNeverGoesBack` | consensus/state.go:966-1038 | Height, round and step never decrease lexicographically between any two points of any run, and the log only grows. |
| `RoundStateSafety.OneVotePerRound` | consensus/state.go:2355-2463 | Over any run a node casts at most one prevote and one precommit per height and round. |
| `RoundStateSafety.TimeoutsAreNotAhead` | consensus/state.go:966-982 | Over any run no scheduled timeout is ahead of the node, so one that is acted upon belongs to the current round. |
| `RoundStateSafety.DecisionsAreConsecutive` | consensus/state.go:1686-1807 | Over any run the finalised heights are exactly those from the initial one up to the current one, each with a precommit majority in the log. |
| `RoundStateSafety.ReachablePanics` | consensus/state.go:1405-1807 | Over any run the quorum, header, hash and height panics are unreachable; only a majority for an invalid block, or a stray precommit at an initial height above 1, halts a node. |
| `RoundStateSafety.NilLastCommitExactly` | consensus/state.go:2132-2141 | The nil LastCommit is dereferenced exactly when such a precommit arrives in the first step of the initial height. |
| `RoundStateSafety.NilLastCommitReached` | consensus/state.go:2132-2141 | Two allowed inputs reach that panic on every chain whose initial height is at least 2. |
| `RoundStateProgress.CommitDecides` | consensus/state.go:1595-1807 | A recorded precommit majority for a valid block that is locked or proposed is finalised in the same step. |
| `RoundStateProgress.MajorityDecides` | consensus/state.go:2319-2345 | A recorded precommit majority makes the node decide its block and enter the next height, or wait in the commit step for exactly the parts of that block. It decides if it is locked on the block, in whatever round it is, or has it as the proposal in the round of the majority or a later one. |
| `RoundStateProgress.LastPartDecides` | consensus/state.go:1952-2063 | In the commit step the last missing part of the committed block makes the node decide it. |
| `RoundStateEffects.PrevoteStep` | consensus/state.go:1318-1402 | Entering the prevote step appends one prevote if the key signs: for x exactly if the node is locked on x, or is unlocked, its proposal block is x, and validation and application accept x. Nothing else changes but the step. |
| `RoundStateEffects.PrecommitStep` | consensus/state.go:1441-1560 | Entering the precommit step with a recorded prevote majority for a block that is locked, or proposed and valid, appends a precommit for it and locks it in this round. A majority for nil or for a block not at hand appends a nil precommit and leaves no lock, and no majority leaves the lock as it was. |
| `RoundStateEffects.ProposeStep` | consensus/state.go:1139-1197 | The propose timeout is scheduled, and a complete proposal is prevoted on at once. |
| `RoundStateEffects.NewRoundStep` | consensus/state.go:1052-1114 | A later round, or round zero of a new height, is entered: lock, valid block and votes are kept, the proposal is forgotten unless it is round zero, and the node proposes unless it waits for transactions. |
| `RoundStateEffects.TimeoutMovesOn` | consensus/state.go:966-1013 | A timeout of the current round not behind the step moves the node into round zero, to the proposal, to the prevote, to the precommit, or through the precommit into the next round; any other changes nothing. |
| `RoundStateEffects.ProposalTaken` | consensus/state.go:1900-1947 | A proposal is taken exactly if it is checked, the first of this height and round, and names an earlier round or none; its parts are then collected. |
| `RoundStateEffects.PartTaken` | consensus/state.go:1952-2028 | A part that fits and is new is kept, any other changes nothing. |
| `RoundStateEffects.LastPartHandled` | consensus/state.go:1952-2063 | The part that completes a block: a block with a majority becomes the valid one; a complete proposal is prevoted on, and precommitted on if its round has a majority; the committed block is finalised. |
| `RoundStateEffects.PrevoteHandled` | consensus/state.go:2240-2317 | What a prevote leads to: release of the lock, valid block, skip to a later round, precommit, wait, or the prevote the proposal was waiting for, each exactly under its condition. |
| `RoundStateEffects.PolkaPrecommits` | consensus/state.go:2240-2317 | The prevote that completes a majority in the current round makes the node precommit and lock the valid proposal, or precommit nil and unlock. |
| `RoundStateEffects.PrecommitHandled` | consensus/state.go:2319-2345 | Two thirds of any precommits make the node reach their round and wait for more once; a nil majority makes it precommit on the way. |
| `RoundStateEffects.VoteIsRecorded` | consensus/state.go:2117-2352 | A vote of the current height is in the vote sets afterwards, in its slot and no other, unless the height was decided. |
| `RoundStateEffects.FirstVoteOfNodeCounts` | consensus/state.go:2117-2352 | The first vote of a validator for a slot raises the power of the slot and of its block by its weight, unless the peer may not open its round or the height was decided. |
| `RoundStateEffects.LateVoteIsRecorded` | consensus/state.go:2132-2163 | A precommit of the previous height goes to LastCommit in the first step, and a full LastCommit may begin round zero at once. |
| `RoundStateEffects.ClaimIsRecorded` | consensus/reactor.go:274-285 | A claim of a majority goes to the slot it names and to no other. |
| `RoundStateEffects.TransactionsEndTheWait` | consensus/state.go:1015-1038 | Transactions make the first round propose, or schedule that if its height has not begun. |
| `ConsensusState.State.constructor` | consensus/state.go:154-208 | A new node is at the initial height with round zero scheduled and nothing cast or decided, and satisfies the invariant. |
| `ConsensusState.State.EnterNewRound` | consensus/state.go:1052-1114 | Entering any round of any height from a state with the invariant keeps the invariant, never steps back and loses no majority. |
| `ConsensusState.State.EnterPropose` | consensus/state.go:1139-1197 | The same for the propose step of a round that is not ahead, with the prevote for a complete proposal. |
| `ConsensusState.State.EnterPrevote` | consensus/state.go:1318-1342 | The same for the prevote step of a round that is not ahead; in the current round it casts the prevote of the rules. |
| `ConsensusState.State.DoPrevote` | consensus/state.go:1344-1402 | Signs the locked block, else a proposal that validation and application both accept, else nil; the vote is justified: never against a lock that no later prevote majority released. |
| `ConsensusState.State.EnterPrevoteWait` | consensus/state.go:1405-1433 | With two thirds of any prevotes the wait is entered within the invariant, so without its panic. |
| `ConsensusState.State.EnterPrecommit` | consensus/state.go:1441-1560 | The precommit step of a round that is not ahead keeps the invariant; in the current round it casts the precommit and sets the lock that the recorded prevotes call for. |
| `ConsensusState.State.PrecommitPolka` | consensus/state.go:1486-1560 | On a recorded prevote majority of the current round the block is precommitted and locked, or nil is and no lock is left, within the invariant. |
| `ConsensusState.State.EnterPrecommitWait` | consensus/state.go:1563-1592 | With two thirds of any precommits the wait is entered within the invariant, so without its panic. |
| `ConsensusState.State.EnterCommit` | consensus/state.go:1595-1655 | With a recorded precommit majority for a block the commit step keeps the invariant, whether it finalises, fetches the block or finds it invalid. |
| `ConsensusState.State.TryFinalizeCommit` | consensus/state.go:1658-1683 | At the current height it keeps the invariant, whether it finalises or waits for the block. |
| `ConsensusState.State.FinalizeCommit` | consensus/state.go:1686-1807 | With the committed block at hand it keeps the invariant: of its panics only the one for an invalid block remains, and otherwise the decided heights stay consecutive. |
| `ConsensusState.State.SetProposal` | consensus/state.go:1900-1947 | Any proposal, accepted or not, keeps the invariant. |
| `ConsensusState.State.AddBlockPart` | consensus/state.go:1952-2028 | Any block part keeps the invariant, also when it completes the block. |
| `ConsensusState.State.HandleCompleteProposal` | consensus/state.go:2030-2063 | A complete proposal keeps the invariant through prevote, precommit or finalisation. |
| `ConsensusState.State.AddVote` | consensus/state.go:2117-2352 | Any vote that was cast, whatever its height and round, keeps the invariant when it is delivered. |
| `ConsensusState.State.OnPrevote` | consensus/state.go:2240-2317 | The reaction to a prevote of any round keeps the invariant. |
| `ConsensusState.State.OnPrecommit` | consensus/state.go:2319-2345 | The reaction to a precommit of any round keeps the invariant. |
| `ConsensusState.State.HandleTimeout` | consensus/state.go:966-1013 | A timeout that is not ahead of the node keeps the invariant, and whatever it makes the node sign is for its own round. |
| `ConsensusState.State.HandleTxsAvailable` | consensus/state.go:1015-1038 | Available transactions keep the invariant. |
| `ConsensusState.State.Handle` | consensus/state.go:784-964 | One turn of the receive routine in place computes the transition function, keeps the node invariant and never steps back. |
| `ConsensusState.State.ReceiveRoutine` | consensus/state.go:784-872 | Any run of events and of votes cast by others, from genesis on, ends in the state of the specification, within the invariant and not before any earlier state of the run. |
| `Agreement.EveryExecKeeps` | consensus/state.go:784-872 | In every reachable state of the network every honest node satisfies its invariant against the one global log of cast votes, whatever the others cast. |
| `Agreement.LockJustification` | consensus/state.go:1344-1560 | If an honest validator precommits a block and later prevotes anything else at that height, a prevote majority for something else, in a round in between, lies strictly earlier in the log. |
| `Agreement.LaterPolkasFollow` | consensus/state.go:2245-2266 | After a precommit majority for a block, every prevote majority of a later round is for that block. |
| `Agreement.Agreement` | consensus/state.go:1344-1715 | With faulty power below one third, in every reachable state no two precommit majorities of one height, in the same or different rounds, are for different blocks. |
| `Agreement.NoConflictingDecisions` | consensus/state.go:1686-1807 | No two honest nodes ever finalise different blocks at one height. |
| `Agreement.MajorityIsValid` | consensus/state.go:1524-1530 | A majority for a block implies that the block passes validation. |
| `Agreement.HonestNodesDoNotPanic` | consensus/state.go:1405-1807 | With faulty power below one third no honest node halts, except for the stray precommit at an initial height above 1. |
| `Agreement.PolkaMatchesCommit` | consensus/state.go:1441-1560 | A prevote majority in the round of a precommit majority is for the same block. |
| `Agreement.HonestNodesDecide` | consensus/state.go:2117-2345 | In every reachable state of the network, delivering to an honest node the precommit that completes a majority makes it finalise the block or wait for its parts in the commit step; it finalises if it is locked on the block, or has it as the proposal in the round of the majority or a later one. |
| `Agreement.HonestNodesDecideLate` | consensus/state.go:1952-2063 | In every reachable state of the network, the last part of the block an honest node waits for in the commit step makes it finalise that block. |
| `Ticker.TimeoutRoutine` | consensus/ticker.go:99-143 | The filtering loop with its one timer fires exactly the running maxima: at each expiry the latest timeout scheduled so far, once. |
| `Ticker.LatestIsMaximum` | consensus/ticker.go:99-143 | The timeout kept is the lexicographic maximum of those scheduled. |
| `Ticker.FiresAdvance` | consensus/ticker.go:99-143 | Fired timeouts were scheduled, and strictly advance in height, round and step. |
| `Ticker.FiredAreScheduled` | consensus/ticker.go:73-143 | What fires is among the timeouts of the node that fed the ticker. |
| `CommitVerification.ByAddress` | types/validator_set.go:275-282 | Finds a validator with the address exactly when there is one. |
| `CommitVerification.VerifyCommitSingle` | types/validation.go:327-402 | The loop with its early exit decides what the recursive definition says. |
| `CommitVerification.VerifyCommitBatch` | types/validation.go:214-318 | The loop that collects a batch and checks it at the end decides what its recursive definition says. |
| `CommitVerification.SingleIsSound` | types/validation.go:327-402 | An accepted commit carries verified signatures of distinct validators whose power exceeds what is needed. |
| `CommitVerification.SingleIsExact` | types/validation.go:327-402 | For a commit whose relevant signatures are right and distinct, the answer is exactly whether the signers hold more power than needed. |
| `CommitVerification.SingleExactly` | types/validation.go:327-402 | One by one, a commit is accepted exactly if some of its first signatures are right, by distinct validators and by enough power, and reported as too weak exactly if all are right and distinct and too few. |
| `CommitVerification.RunExactly` | types/validation.go:214-402 | Either way a commit is accepted exactly if some of its first signatures suffice; when too little power is reported, exactly, for both ways. |
| `CommitVerification.CommitLightExactly` | types/validation.go:84-115 | Accepted exactly if size, height and block match and some of the first signatures are right and by more than two thirds of the power. |
| `CommitVerification.CommitTrustingExactly` | types/validation.go:150-192 | Accepted, and reported as too weak, exactly by the level of the trusted power that signs, if the product does not overflow. |
| `CommitVerification.CleanCommit` | types/validation.go:84-192 | If all signatures are right and distinct both come down to the power of all signers. |
| `CommitVerification.BatchAcceptsAsSingle` | types/validation.go:206-318 | Batch verification accepts exactly the commits that one-by-one verification accepts. |
| `CommitVerification.BatchReportsPowerFirst` | types/validation.go:293-318 | When the batch reports too little power, one-by-one verification reports the same exactly if every relevant signature is right, and a wrong signature otherwise. |
| `CommitVerification.BatchVerdict` | types/validation.go:214-318 | What the batch answers, by where and why it stops collecting; only a batch with enough power depends on any signature being right. |
| `CommitVerification.SingleVerdict` | types/validation.go:327-402 | One-by-one verification reports a wrong signature exactly if there is one up to that stop or the stop is for a signature the batch cannot take, and otherwise what the batch does. |
| `CommitVerification.BatchAnswersAsSingle` | types/validation.go:206-212 | The claimed equivalence, exactly: the two answer alike if and only if the batch stops with enough power, or it stops for another reason than a signature it cannot take and every relevant signature before is right. |
| `CommitVerification.BatchDiffers` | types/validation.go:206-318 | Commits on which they differ, for too little power, a double vote and a signature that cannot be taken. |
| `CommitVerification.TotalIsPower` | types/validator_set.go:303-326 | The total used for thresholds is the combined power of all validators. |
| `CommitVerification.TrustLevelRange` | light/verifier.go:197-204 | Accepted trust levels lie in [1/3, 1], and all of those are accepted whose numerator can be tripled within 64 bits. |
| `CommitVerification.TrustLevelExactly` | light/verifier.go:197-204 | For numerator and denominator within 63 bits, as they are parsed, exactly the levels in [1/3, 1] whose numerator can be tripled within 64 bits are accepted. |
| `CommitVerification.TrustLevelOne` | light/verifier.go:197-204 | Exactly which unsigned 64-bit numerators make the level 1 acceptable, wrap-around included. |
| `CommitVerification.TrustLevelOneTurnedDown` | light/verifier.go:197-204 | The largest signed 64-bit integer over itself is refused and the next integer over itself accepted, although both are the level 1. |
| `CommitVerification.FloorKeepsThird` | types/validation.go:168-173 | Power above the floor of total*level is more than a third of the total, at every admissible level. |
| `CommitVerification.TrustingIsSound` | types/validation.go:150-192 | A commit accepted against a trusted set is signed by more than a third of it. |
| `LightVerifier.AdjacentIsSound` | light/verifier.go:93-132 | A block accepted right after a canonical one commits to the canonical header. |
| `LightVerifier.NonAdjacentIsSound` | light/verifier.go:32-79 | A block accepted from further away commits to the canonical header. |
| `LightVerifier.VerifyIsSound` | light/verifier.go:135-192 | A block accepted against a canonical one has the canonical header and validator set of its height, is later in height and time, not from the future, and was checked against a header still in its trusting period. |
| `LightVerifier.AcceptedBySupermajority` | light/verifier.go:32-132 | An accepted block belongs to the trusted chain, names the validators supplied with it, and is signed by more than two thirds of them. |
| `LightVerifier.LackOfTrustLeavesRoom` | light/verifier.go:145-151 | Lack of trust is reported only for blocks at least two heights away. |
| `LightVerifier.AdjacentExactly` | light/verifier.go:93-132 | An adjacent block is trusted exactly if the trusted header is in its trusting period, header and times are in order, the trusted header names its validators, and more than two thirds of them sign. |
| `LightVerifier.NonAdjacentExactly` | light/verifier.go:32-79 | Another block is trusted exactly if, besides, more than the trust level of the trusted validators sign, and trust is lacking exactly if no more than that do. |
| `LightVerifier.VerifyExactly` | light/verifier.go:135-153 | Both together: exactly what is trusted, and when trust is lacking. |
| `LightVerifier.ExpiredExactly` | light/verifier.go:135-153 | Expiry is reported exactly for a trusted header out of its trusting period. |
| `LightClient.PivotIsInside` | light/client.go:747-750 | The pivot lies strictly between the verified and the failing height. |
| `LightClient.TraceIsCanonical` | light/client.go:706-773 | Every block of a trace from a canonical block is canonical at its height. |
| `LightClient.ClientsAgree` | light/client.go:700-773 | Two clients agree on the header and validators of any height they both verified, whatever their providers. |
| `LightClient.Client.VerifySkipping` | light/client.go:706-773 | The bisection terminates despite repeated cache entries; a returned trace grows strictly from the trusted to the target block with every pair accepted; every requested pivot is nine sixteenths into its interval and strictly inside; every refusal is one the verifier gave against a verified block; and if the source serves one chain in which no block is refused against an earlier one for more than lack of trust, the search succeeds. |
| `LightClient.Client.VerifySkippingAgainstPrimary` | light/client.go:777-828 | Retries terminate because each replacement leaves fewer witnesses; success means an accepted trace to a block with the target hash; and it succeeds if the primary serves one chain in which no block is refused against an earlier one for more than lack of trust. |
| `LightClient.Client.VerifySequential` | light/client.go:613-697 | Terminates across provider replacements; the trace, also one given up, is contiguous in height with every adjacent pair accepted, and ends at the target on success; and it succeeds if the primary serves one chain in which each block follows from the one before. |
| `LightClient.Client.LightBlockFromPrimary` | light/client.go:990-1016 | The answer of the primary if it has the block; after a cancellation nothing; otherwise the answer of the witness that replaces it, exactly if there is one to promote. Never more witnesses than before. |
| `LightClient.Client.RemoveWitnesses` | light/client.go:1019-1034 | Swap-with-last removal in descending order removes exactly the indexed witnesses, as a multiset; refused exactly when none would remain. |
| `LightClient.Client.FindNewPrimary` | light/client.go:1046-1127 | The primary becomes the first witness, in the order of the answers, that answers with a block, and it succeeds exactly if there is one and, when the old primary is removed, some witness is left besides it and those dropped. On success no provider is duplicated or invented and removing the old primary leaves strictly fewer witnesses; a failed removal is the one case where the promoted witness is primary and witness at once. |
| `LightClient.OnlyWitnessPromoted` | light/client.go:1084-1108 | Such a case: the only witness answers, the replacement fails, and it is then both. |
| `LightClient.Client.Promote` | light/client.go:1084-1108 | Promotion fails exactly when every witness would go, and conserves providers otherwise. |
| `LightClient.SwapRemoveTakesOne` | light/client.go:1028-1031 | One swap-with-last removes exactly the witness at that index. |
| `CrashRecovery.ApplyKeeps` | state/execution.go:246-363 | Response, application commit and state are written in an order that keeps the disk invariant after every single write. |
| `CrashRecovery.ReplayKeeps` | consensus/replay.go:461-521 | Replaying from any application height keeps the disk invariant after every commit, finds every application hash in order, and ends with everything at the store height. |
| `CrashRecovery.HandshakeRecovers` | consensus/replay.go:300-459 | From every disk the invariant allows: the handshake ends in sync, unless the missing blocks were pruned (error) or the first block of a chain that starts above 1 was saved without its state (panic); all other panics are unreachable. |
| `CrashRecovery.FinalizeKeeps` | consensus/state.go:1726-1790 | Finalising a block keeps the disk invariant after every write and ends in sync at the next height; the end of the height is then recorded in the log. |
| `CrashRecovery.EveryRunKeeps` | consensus/state.go:1726-1790 | The disk invariant holds after any run of finalisations, handshakes, pruning and application rollbacks, each cut short anywhere. |
| `CrashRecovery.EveryRunRecovers` | consensus/replay.go:375-459 | After any such run a complete handshake brings application, state and store to the height of the store, under exactly the two conditions above. |
| `CrashRecovery.NoPanicFromHeightOne` | consensus/replay.go:375-459 | For a chain from height 1 no handshake panics. |
| `CrashRecovery.LostFirstBlock` | consensus/replay.go:400-402 | For a chain from a later height, a crash after saving the first block makes the next handshake panic. |
| `CrashRecovery.CommitsExactlyOnce` | consensus/replay.go:461-542 | The handshake commits on the application exactly the blocks it has not seen, once each and in order. |
| `CrashRecovery.EndHeightMeansStored` | consensus/state.go:1747-1770 | An EndHeight record implies that its block is stored, and the height being decided has none. |
| `CrashRecovery.GenesisHashMismatch` | consensus/replay.go:346-379 | The first handshake panics exactly when the genesis document carries an application hash and the application returns none. |
| `CrashRecovery.RefusedHeights` | consensus/replay.go:381-402 | On any disk with blocks the handshake refuses or panics about the heights exactly when application, state and store lie so, and its last branch is never met. |
| `CrashRecovery.Handshaker.Shake` | consensus/replay.go:300-459 | The handshake in place performs the planned writes, and from any disk a crash can leave it ends with application, state and store in sync at the height of the store, but for the two stated conditions. |
| `CrashRecovery.Handshaker.Synchronize` | consensus/replay.go:375-459 | The case analysis on the three heights, in place, performs the planned writes and ends in the same way. |
| `CrashRecovery.Handshaker.Replay` | consensus/replay.go:461-521 | The replay loop in place commits the missing blocks in order; if the application misses stored blocks no hash check fails and everything ends in sync. |
| `CrashRecovery.Handshaker.ReplayOne` | consensus/replay.go:524-542 | The block after the state, applied with the application or with its saved response, brings everything in sync; any other is refused. |
| `CrashRecovery.Handshaker.ApplyBlock` | state/execution.go:246-363 | The writes of one applied block are the planned ones, in order. |
| `PrivValidator.CheckHRSIsOrder` | privval/file.go:100-132 | A new signature is let through exactly when height, round and step grow lexicographically, and refused as a regression exactly when they shrink. |
| `PrivValidator.ReleaseIsRecorded` | privval/file.go:308-422 | What is released equals the request up to its time and is what the file records. |
| `PrivValidator.NewSlotIsSigned` | privval/file.go:308-366 | A request after the recorded height, round and step, with an admissible extension and a key that answers, is signed, recorded and released; a crash before or after the write loses the signature or only the release. |
| `PrivValidator.SameSlotIsRepeated` | privval/file.go:334-355 | A request that repeats the recorded one up to its time gets the recorded time and signature, and nothing is written. |
| `PrivValidator.RefusedExactly` | privval/file.go:308-422 | Refused exactly for an earlier slot, the recorded slot with other data, an extension that is not admissible, or a new slot the key does not sign; nothing then changes. |
| `PrivValidator.SignKeeps` | privval/file.go:308-422 | Every signing request keeps the signer invariant, wherever the process stops, and never panics. |
| `PrivValidator.EveryRunKeeps` | privval/file.go:308-422 | The invariant holds over any sequence of requests, crashes and reloads. |
| `PrivValidator.NoDoubleSigning` | privval/file.go:308-422 | Over any such sequence two released signatures for one height, round and step are the same signature over the same data. |
| `PrivValidator.FreshSlotsIncrease` | privval/file.go:100-132 | Freshly signed heights, rounds and steps strictly increase. |
| `PrivValidator.RunsDoNotPanic` | privval/file.go:430-466 | The nil-signature and unmarshalling panics are unreachable. |
| `PrivValidator.CrashAfterSaveIsRecovered` | privval/file.go:334-355 | After a crash between saving and releasing, the same request with any time yields the saved signature and time. |
| `PrivValidator.CrashBeforeSaveIsForgotten` | privval/file.go:413-422 | A crash before the file is written leaves no trace. |
| `PrivValidator.FilePV.Sign` | privval/file.go:308-410 | The in-place signer computes the specified outcome and state, keeps the invariant, and does not panic; a new slot is signed and released. |
| `PrivValidator.FilePV.SaveSigned` | privval/file.go:413-422 | Memory and file after saving, with a crash before or after the write. |
| `PrivValidator.FilePV.Reload` | privval/file.go:198-233 | A restart restores what the file holds. |
| `Wal.WordRoundTrip` | consensus/wal.go:321-323 | Big-endian words decode to what was encoded. |
| `Wal.BigEndian` | consensus/wal.go:321-323 | The most significant byte of a word comes first. |
| `Wal.EncodeRecord` | consensus/wal.go:301-330 | The buffer holds checksum, length and payload; payloads over the limit are refused. |
| `Wal.DecodeEncoded` | consensus/wal.go:366-420 | Decoding a record followed by anything yields its message and leaves the rest. |
| `Wal.RoundTrip` | consensus/wal.go:301-420 | Decoding the concatenated records of any messages yields those messages and then the end, for file and group readers. |
| `Wal.IntactPrefixIsRead` | consensus/wal.go:366-420 | Every intact record before any bytes whatsoever is read. |
| `Wal.TornRecordIsLost` | consensus/wal.go:366-420 | A record cut short anywhere is not read by a group reader; fewer than four bytes of it read as a clean end. |
| `Wal.TornLog` | consensus/wal.go:366-420 | A log cut at any byte reads as exactly the messages that were written completely. |
| `Wal.RepairIsClean` | consensus/state.go:2555-2587 | For any bytes, a successful repair decodes without corruption to the messages that were readable before. |
| `Wal.RepairIsIdempotent` | consensus/state.go:2555-2587 | Repairing twice is repairing once. |
| `Wal.RepairKeepsIntactPrefix` | consensus/state.go:2555-2587 | Repair of records followed by damage gives back exactly those records. |
| `Wal.RepairFile` | consensus/state.go:2555-2587 | The copying loop writes the encodings of the longest decodable prefix, or fails exactly when one of its messages exceeds the record limit. |
| `Wal.Decoder.Next` | consensus/wal.go:366-420 | The decoder that consumes a reader returns and leaves what the specification says, on every error path. |
| `Wal.Decoder.ReadBytes` | libs/autofile/group.go:460-496 | A read over a group fills the buffer or reports the end; a file may return less. |
| `WalSearch.SearchForEndHeight` | consensus/wal.go:231-284 | With older files whole and anything at all in the newest: the marker is found exactly when it is among the readable messages, and the reader is left just after it; a search that skips corrupt entries never fails, and one that does not fails exactly when the newest file is corrupt and the marker does not come before that. |
| `WalSearch.ScanGroup` | consensus/wal.go:250-281 | One pass over any bytes finds the marker exactly when it is among the readable messages, fails exactly when it meets a corrupt entry first and does not skip, and else remembers the last marker seen. |
| `WalSearch.ReadTorn` | consensus/wal.go:366-420 | A file whose last record a crash cut short reads as the records before it; a reader that does not skip reports an error exactly when at least four bytes of it were written. |
| `WalSearch.ReadIntact` | consensus/wal.go:366-420 | Whole records are read in order, and what follows them is read as if it stood alone. |
| `WalSearch.SkippingIsClean` | consensus/wal.go:263-266 | A reader that skips corrupt entries reaches the end of any bytes. |
| `WalSearch.EarlyStopIsSound` | consensus/wal.go:252-256 | If the last marker is positive and lower, the one sought is in no older file. |
| `PeerState.CompareHRS` | consensus/state.go:2534-2551 | Negative exactly for a lexicographically smaller height, round and step, zero exactly for equal ones. |
| `PeerState.BitArray.Merge` | consensus/reactor.go:1465-1479 | No bit is set that was neither set before nor in the message. |
| `PeerState.MergedBits` | libs/bits/bit_array.go:135-224 | Subtraction and union together invent no bit. |
| `PeerState.MergedExactly` | consensus/reactor.go:1465-1479 | Afterwards the peer is known to have what it says, and of votes that are not ours what was known before. |
| `PeerState.Peer.GetVoteBitArray` | consensus/reactor.go:1193-1237 | Only ever returns an array made for the height, round and type asked for, holding only votes claimed for them. |
| `PeerState.Peer.EnsureCatchupCommitRound` | consensus/reactor.go:1240-1266 | Keeps every array labelled correctly, also when the catch-up commit shares the precommits array. |
| `PeerState.Peer.EnsureVoteBitArrays` | consensus/reactor.go:1278-1297 | Lazy allocation gives every missing array the label its field stands for and replaces none that is there. |
| `PeerState.Peer.SetHasVote` | consensus/reactor.go:1345-1358 | Credits the vote in the array of its own slot, if there is one and the index is in range, and changes nothing else. |
| `PeerState.Peer.AddVote` | consensus/reactor.go:341-348 | A vote received from the peer is credited in its own slot, for which arrays are made if there were none. |
| `PeerState.Peer.ApplyHasVote` | consensus/reactor.go:1449-1458 | A has-vote message of the peer’s height is credited; it keeps every array labelled correctly and credits only what it claims. |
| `PeerState.Peer.ApplyNewRoundStep` | consensus/reactor.go:1361-1412 | Ignores what is not newer; shifting precommits to the last commit and restoring a catch-up commit keep every array labelled correctly. |
| `PeerState.Peer.SetHasProposal` | consensus/reactor.go:1095-1118 | A new POL round never inherits the array of another one. |
| `PeerState.Peer.ApplyProposalPOL` | consensus/reactor.go:1432-1446 | The array of the message is taken only for the recorded POL round, and labelled with it. |
| `PeerState.Peer.ApplyVoteSetBits` | consensus/reactor.go:1465-1479 | The bits of the message reach only the array of the height, round and type it names. |
| `PeerState.Peer.PickSendVote` | consensus/reactor.go:1147-1191 | A vote sent to the peer is credited to its own slot only, and is credited there if the slot has an array and the index is in range, also when the catch-up commit is set up for it. |
| `PeerState.Peer.HandleAll` | consensus/reactor.go:255-400 | Over any sequence of messages and sends the peer is credited only with votes that were claimed for that very height, round and type. |
| `Mempool.CListMempool.AddTx` | mempool/clist_mempool.go:354-359 | Appends the transaction; list, index and byte counter stay in agreement and within the limits. |
| `Mempool.CListMempool.RemoveTxByKey` | mempool/clist_mempool.go:365-375 | Removes exactly that entry; list, index and byte counter stay in agreement. |
| `Mempool.CListMempool.IndexAgrees` | mempool/clist_mempool.go:98-110 | The index answers as a search of the list would. |
| `Mempool.CListMempool.RoomExactly` | mempool/clist_mempool.go:377-393 | There is room exactly for what keeps both limits, unless a pending recheck closes the mempool. |
| `Mempool.CListMempool.CacheAfterLast` | mempool/clist_mempool.go:598-610 | The last transaction of a block is the most recent in the cache, or if invalid forgotten unless configured otherwise. |
| `Mempool.CListMempool.ResCbFirstTime` | mempool/clist_mempool.go:328-470 | Adds the transaction exactly if it is good, new and within the limits; forgets it in the cache if it does not fit or is bad; panics exactly during a recheck. |
| `Mempool.CListMempool.FindNextEntryMatching` | mempool/clist_mempool.go:731-777 | Succeeds exactly if the transaction is among the entries still to be rechecked (otherwise the walk leaves the list), and ends the recheck exactly with the last entry. |
| `Mempool.CListMempool.GlobalCb` | mempool/clist_mempool.go:288-498 | One answer removes its entry exactly if it is invalid, moves the cursor past it, and is discarded once the recheck is over. |
| `Mempool.CListMempool.RecheckTxs` | mempool/clist_mempool.go:642-684 | For any answers in list order, some possibly missing, the list ends as it was minus the transactions reported invalid. |
| `Mempool.CListMempool.Update` | mempool/clist_mempool.go:577-638 | After a block the list is the old one in its order, minus the block, minus what the recheck reports invalid. |
| `Mempool.CListMempool.RemoveBlock` | mempool/clist_mempool.go:598-622 | Removes exactly the transactions of the block; its valid ones become the most recent in the cache, its invalid ones are forgotten. |
| `Mempool.CListMempool.Flush` | mempool/clist_mempool.go:187-195 | Empties list, index, counter and cache. |
| `Mempool.CListMempool.Run` | mempool/clist_mempool.go:223-684 | Over any run of submissions, first answers, locks, commits with their rechecks and flushes nothing panics, list, index, counter and limits stay in agreement, the cache holds distinct transactions within its size, and only transactions the application accepted are listed. |
| `Mempool.CListMempool.ReapMaxTxs` | mempool/clist_mempool.go:560-574 | The oldest transactions in order, one more than asked for if there are that many. |
| `Mempool.FilterOutMembers` | mempool/clist_mempool.go:598-622 | The filtered list holds exactly the other entries. |
| `Mempool.FilterOutOneMore` | mempool/clist_mempool.go:476-498 | Removing one entry after the other is filtering them out together. |
| `TxCache.LRUTxCache.Push` | mempool/cache.go:64-89 | Map and list stay in agreement and refine the recency sequence; reports exactly whether the key is new. |
| `TxCache.LRUTxCache.Remove` | mempool/cache.go:91-102 | Removes exactly the key. |
| `TxCache.LRUTxCache.Has` | mempool/cache.go:104-110 | Exactly membership in the recency sequence. |
| `TxCache.LRUTxCache.Reset` | mempool/cache.go:56-62 | Empties the cache. |
| `TxCache.PushedKeeps` | mempool/cache.go:64-89 | Keys stay distinct, at most the configured number of them (at least one), the pushed one last. |
| `TxCache.CacheIsMostRecent` | mempool/cache.go:64-89 | After any pushes the cache holds exactly the most recently pushed keys, so what was evicted is the least recently pushed. |
| `BlockPool.StartHeight` | blocksync/reactor.go:83-109 | The first block wanted is the initial one or the one after the state; refused exactly when state and store disagree. |
| `BlockPool.Pool.ReadNextHeight` | blocksync/pool.go:133-141 | Reads the next height under the lock and releases it. |
| `BlockPool.Pool.MakeNextRequester` | blocksync/pool.go:489-501 | Whatever ran since the height was read, it is still the first height without a requester. |
| `BlockPool.Pool.PopRequest` | blocksync/pool.go:247-267 | The requester to pop and all those to notify exist; the pool moves up by one, the next fifty requesters learn its height, and all that remain keep their peers and blocks. |
| `BlockPool.Pool.PeekTwoBlocks` | blocksync/reactor.go:456-471 | Both height panics of the pool routine are unreachable. |
| `BlockPool.Pool.RejectFirst` | blocksync/reactor.go:515-523 | The requester of the first block, looked up after a failed verification, exists, and exactly the peer that sent the block goes. |
| `BlockPool.Pool.RejectSecond` | blocksync/reactor.go:524-531 | The same for the second block, whatever the other routines did in between. |
| `BlockPool.Pool.AddBlock` | blocksync/pool.go:311-351 | A block is accepted exactly for its own height and from a peer it was requested from; it is then stored with its sender unless one is there already. |
| `BlockPool.Pool.PickPeer` | blocksync/pool.go:758-806 | Choosing a first or second peer changes nothing else. |
| `BlockPool.ResetExactly` | blocksync/pool.go:726-746 | A forgotten peer takes its block along; otherwise block and sender stay. |
| `BlockPool.Pool.ResetRequester` | blocksync/pool.go:726-746 | Forgetting a peer keeps every stored block at its own height. |
| `BlockPool.Pool.SetPeerRange` | blocksync/pool.go:368-392 | The recorded maximum bounds every reported height. |
| `BlockPool.Pool.RemovePeer` | blocksync/pool.go:403-430 | Removes exactly the peer and keeps that bound. |
| `BlockPool.Pool.UpdateMaxPeerHeight` | blocksync/pool.go:433-441 | The maximum of the reported heights, or 0. |
| `BlockPool.Pool.ApplyBlock` | blocksync/reactor.go:534-549 | The popped block is applied next. |
| `BlockPool.Pool.Run` | blocksync/pool.go:120-156 | However the routines interleave nothing panics, requesters cover exactly the heights from the pool height on, and blocks are applied in height order without gaps. |
| `EvidenceKeys.PadOrders` | evidence/pool.go:558-561 | Padded hexadecimal orders as the numbers do, whatever follows. |
| `EvidenceKeys.KeysOrderByHeight` | evidence/pool.go:558-573 | Database order visits evidence by height. |
| `EvidenceKeys.KeysAreInjective` | evidence/pool.go:563-573 | Keys are equal exactly for equal height and hash. |
| `EvidencePool.FirstUnexpired` | evidence/pool.go:403-434 | If the first item is not expired, none is. |
| `EvidencePool.Pool.constructor` | evidence/pool.go:55-84 | Opening a store drops exactly the expired items, counts the rest and sets the marks for the next pruning. |
| `EvidencePool.Pool.AddEvidence` | evidence/pool.go:134-168 | Adds the item exactly if it is unknown and verifies; pending and committed stay disjoint and the counter bounds the pending items. |
| `EvidencePool.Pool.CheckEvidence` | evidence/pool.go:192-230 | On success all evidence of the block is distinct, not committed, and now pending; distinct evidence that verifies and is not committed is always accepted. |
| `EvidencePool.Pool.MarkEvidenceAsCommitted` | evidence/pool.go:328-356 | Moves exactly these items out of pending and into committed. |
| `EvidencePool.Pool.RemoveExpiredPendingEvidence` | evidence/pool.go:403-434 | Despite its early exit removes exactly the expired items. The marks it returns tell, for every later state, whether any of the rest is expired, to within a second; with nothing left they are the current height and time. |
| `EvidencePool.Pool.ProcessConsensusBuffer` | evidence/pool.go:459-537 | Exactly the buffered votes of finished heights from which evidence can be formed become pending evidence dated by their block, unless already pending or committed, and the buffer is emptied. |
| `EvidencePool.Pool.Update` | evidence/pool.go:105-131 | Refused exactly when the height does not grow; otherwise the evidence of the block is committed and no longer pending, and nothing else is lost unless it is expired. No pending item is expired afterwards if and only if height and time exceed the marks of the last pruning, or none of the items that stay is expired. |
| `EvidencePool.FreshAfterFlush` | evidence/pool.go:459-537 | Whether an item that stays is expired, in terms of the pool before the update. |
| `EvidencePool.MarkOfFirst` | evidence/pool.go:418-422 | The marks of the first item are those of all. |
| `EvidencePool.ExpiredItemKept` | evidence/pool.go:105-131 | An update that keeps an expired item: its height equals the mark instead of exceeding it. |
| `EvidencePool.ListingMeans` | evidence/pool.go:358-401 | The listing holds pending items, each once, in database order and so oldest first, within the limit; items are missing only under a limit, only from the end, and only if the next one would exceed it. |
| `EvidencePool.Pool.ListEvidence` | evidence/pool.go:360-401 | The loop returns that listing: oldest to newest, and as many as fit. |
| `EvidencePool.Pool.PendingEvidence` | evidence/pool.go:87-96 | The shortcut for an empty counter never hides evidence: the same listing, oldest to newest and as many as fit. |
| `EvidencePool.Pool.Run` | evidence/pool.go:105-230 | Over any run of additions, block checks, reported votes and updates, committed evidence stays committed and is never pending again, and nothing panics if heights grow. |

## Left out

- VoteSets: `VoteSet` and `HeightVoteSet` are values that the consensus class replaces; their updates in place, bit arrays and locking are not modelled.
- ConsensusState: creating a proposal, vote extensions, block times, evidence of conflicting votes, metrics, event-bus errors and the replay of WAL messages into a node; a restarted node does not take part in the network of `Agreement`.
- Agreement: liveness is not stated; validator sets are fixed per height and the same for all nodes; a block and its identifier stand for each other; validity of a block depends on the height and the block only.
- RoundStates: heights, rounds and powers are unbounded integers, so 32- and 64-bit overflow is outside these models except where a member says so.
- CommitVerification: trust levels are those `ParseFraction` yields (libs/math/fraction.go:44-46), both parts within 63 bits; `VerifyCommit` with all signatures counted is not modelled.
- LightClient: the divergence detector, backwards verification, trust options, the trusted store and concurrency of requests beyond the order of their answers.
- CrashRecovery: the block and state databases write atomically; errors of the application and of the databases, and the pruning of state, are not modelled; pruning of blocks is any raise of the base up to the state height.
- PrivValidator: signatures of vote extensions, which may be repeated over different data; errors while writing the file, which end the process.
- Wal: payloads of 4 GiB or more, file rotation and total size limits; a plain file read is assumed to return everything it can.
- WalSearch: files other than the newest hold whole records, and heights end in increasing order; a reader that cannot be opened is not modelled.
- PeerState: block-part bit arrays, statistics and gossip; bit arrays in messages have as many words as their size needs.
- Mempool: senders, notification of consensus, the count of outstanding recheck answers, `ReapMaxBytesMaxGas`, and concurrency beyond callbacks that run one at a time; the cache field follows the recency sequence that `TxCache` refines.
- BlockPool: pending counters, rates, timeouts, bans and vote extensions; redo requests are resets that may happen at any time.
- EvidencePool: the broadcast list, database errors and wrap-around of the 32-bit counter; the counter is only an upper bound because evidence of light-client attacks is counted again when it is checked again.
- p2p, RPC, state sync, indexing, configuration and the remaining reactors are not modelled.
