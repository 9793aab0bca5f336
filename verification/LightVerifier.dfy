/** Verification of one untrusted header against a trusted one (light/verifier.go). */
module LightVerifier {
  import opened VotingPower
  import opened CommitVerification

  datatype Header = Header(chain: nat, height: nat, time: int, validatorsHash: Hash,
    nextValidatorsHash: Hash, rest: nat)

  datatype LightBlock = LightBlock(header: Header, commit: Commit, vals: seq<Member>)

  datatype Params = Params(
    crypto: Crypto, headerHash: Header -> Hash,
    headerOk: Header -> bool, commitOk: Commit -> bool,          // the remaining ValidateBasic checks
    trustingPeriod: int, maxClockDrift: int, trustLevel: Fraction, now: int)

  datatype Outcome = Trusted | CantBeTrusted | InvalidHeader | Expired | Failed

  predicate HeaderExpired(p: Params, trusted: Header) {
    trusted.time + p.trustingPeriod <= p.now
  }

  /** SignedHeader.ValidateBasic: the commit is for this very header, on the right chain. */
  predicate ValidSignedHeader(p: Params, b: LightBlock, chain: nat) {
    && p.headerOk(b.header) && p.commitOk(b.commit)
    && (forall s <- b.commit.sigs :: p.crypto.wellFormed(s))
    && b.header.chain == chain
    && b.commit.height == b.header.height && b.commit.blockId.hash == p.headerHash(b.header)
  }

  predicate NewHeaderAndValsOk(p: Params, trusted: Header, b: LightBlock) {
    && ValidSignedHeader(p, b, trusted.chain)
    && b.header.height > trusted.height
    && b.header.time > trusted.time
    && b.header.time < p.now + p.maxClockDrift
    && b.header.validatorsHash == p.crypto.valsHash(b.vals)
  }

  function VerifyNonAdjacent(p: Params, trusted: Header, trustedVals: seq<Member>, b: LightBlock): Outcome {
    if b.header.height == trusted.height + 1 then Failed
    else if HeaderExpired(p, trusted) then Expired
    else if !NewHeaderAndValsOk(p, trusted, b) then InvalidHeader
    else
      match CommitTrusting(p.crypto, trusted.chain, trustedVals, b.commit, p.trustLevel)
      case NotEnoughPower => CantBeTrusted
      case Accepted =>
        if CommitLight(p.crypto, trusted.chain, b.vals, b.commit.blockId, b.header.height, b.commit) != Accepted
        then InvalidHeader
        else Trusted
      case _ => Failed
  }

  function VerifyAdjacent(p: Params, trusted: Header, b: LightBlock): Outcome {
    if b.header.height != trusted.height + 1 then Failed
    else if HeaderExpired(p, trusted) then Expired
    else if !NewHeaderAndValsOk(p, trusted, b) then InvalidHeader
    else if b.header.validatorsHash != trusted.nextValidatorsHash then Failed
    else if CommitLight(p.crypto, trusted.chain, b.vals, b.commit.blockId, b.header.height, b.commit) != Accepted
        then InvalidHeader
    else Trusted
  }

  function Verify(p: Params, trusted: LightBlock, b: LightBlock): Outcome {
    if b.header.height != trusted.header.height + 1 then VerifyNonAdjacent(p, trusted.header, trusted.vals, b)
    else VerifyAdjacent(p, trusted.header, b)
  }

  // ----- exactly which blocks are accepted --------------------------------------------------------

  /** The header is well formed, of the trusted chain, later than the trusted one and not from the future. */
  predicate Presentable(p: Params, trusted: Header, b: LightBlock) {
    && p.headerOk(b.header) && p.commitOk(b.commit) && (forall s <- b.commit.sigs :: p.crypto.wellFormed(s))
    && b.header.chain == trusted.chain && trusted.height < b.header.height
    && trusted.time < b.header.time < p.now + p.maxClockDrift
    && b.commit.height == b.header.height && b.commit.blockId.hash == p.headerHash(b.header)
    && b.header.validatorsHash == p.crypto.valsHash(b.vals)
  }

  predicate InTrustingPeriod(p: Params, trusted: Header) {
    p.now < trusted.time + p.trustingPeriod
  }

  /** Its own validators, one signature each, sign it with more than two thirds of their power. */
  ghost predicate OwnSupport(p: Params, b: LightBlock) {
    && |b.vals| == |b.commit.sigs|
    && SignedByMoreThan(Check(p.crypto, b.header.chain, b.vals, b.commit, 0, true), Fraction(2, 3))
  }

  /** The trusted validators among its signers. */
  function Overlap(p: Params, trustedVals: seq<Member>, b: LightBlock): Check {
    Check(p.crypto, b.header.chain, trustedVals, b.commit, 0, false)
  }

  predicate LevelFits(p: Params, vals: seq<Member>) {
    p.trustLevel.denominator != 0 && Total(vals) * p.trustLevel.numerator <= MAX_INT64
  }

  lemma OwnSupportExactly(p: Params, trusted: Header, b: LightBlock)
    requires BatchTakesGood(p) && Presentable(p, trusted, b)
    ensures CommitLight(p.crypto, trusted.chain, b.vals, b.commit.blockId, b.header.height, b.commit) == Accepted <==>
            OwnSupport(p, b)
  {
    hide CommitLight, SignedByMoreThan;
    if |b.vals| == |b.commit.sigs| {
      WellFormedIsLawful(p, b, Check(p.crypto, b.header.chain, b.vals, b.commit, 0, true));
    }
    CommitLightExactly(p.crypto, trusted.chain, b.vals, b.commit.blockId, b.header.height, b.commit, 0);
  }

  /** An adjacent block is trusted exactly if the trusted header names its validators and they sign it. */
  lemma AdjacentExactly(p: Params, trusted: Header, b: LightBlock)
    requires BatchTakesGood(p)
    ensures VerifyAdjacent(p, trusted, b) == Trusted <==>
            && b.header.height == trusted.height + 1 && InTrustingPeriod(p, trusted) && Presentable(p, trusted, b)
            && b.header.validatorsHash == trusted.nextValidatorsHash && OwnSupport(p, b)
    ensures VerifyAdjacent(p, trusted, b) != CantBeTrusted
  {
    hide CommitLight, OwnSupport;
    if Presentable(p, trusted, b) {
      OwnSupportExactly(p, trusted, b);
    }
  }

  /**
   * Another block is trusted exactly if more than the trust level of the trusted validators sign it, and more than two
   * thirds of its own. Trust is lacking exactly if all its signers among the former are no more than the level.
   */
  lemma NonAdjacentExactly(p: Params, trusted: Header, trustedVals: seq<Member>, b: LightBlock)
    requires BatchTakesGood(p)
    ensures var o := VerifyNonAdjacent(p, trusted, trustedVals, b);
            var fit := && b.header.height != trusted.height + 1 && InTrustingPeriod(p, trusted)
                       && Presentable(p, trusted, b) && LevelFits(p, trustedVals);
            && (o == Trusted <==>
                fit && SignedByMoreThan(Overlap(p, trustedVals, b), p.trustLevel) && OwnSupport(p, b))
            && (o == CantBeTrusted <==> fit && SignedByAtMost(Overlap(p, trustedVals, b), p.trustLevel))
  {
    hide CommitLight, CommitTrusting, OwnSupport, SignedByMoreThan, SignedByAtMost;
    if Presentable(p, trusted, b) {
      OwnSupportExactly(p, trusted, b);
      WellFormedIsLawful(p, b, Overlap(p, trustedVals, b));
      CommitTrustingExactly(p.crypto, trusted.chain, trustedVals, b.commit, p.trustLevel, 0);
    }
  }

  /** What Verify trusts, and when it asks for a block in between. */
  lemma VerifyExactly(p: Params, trusted: LightBlock, b: LightBlock)
    requires BatchTakesGood(p)
    ensures var t := trusted.header;
            var fit := InTrustingPeriod(p, t) && Presentable(p, t, b);
            var overlap := Overlap(p, trusted.vals, b);
            && (Verify(p, trusted, b) == Trusted <==>
                && fit && OwnSupport(p, b)
                && if b.header.height == t.height + 1 then b.header.validatorsHash == t.nextValidatorsHash
                   else LevelFits(p, trusted.vals) && SignedByMoreThan(overlap, p.trustLevel))
            && (Verify(p, trusted, b) == CantBeTrusted <==>
                && fit && b.header.height != t.height + 1
                && LevelFits(p, trusted.vals) && SignedByAtMost(overlap, p.trustLevel))
  {
    hide VerifyAdjacent, VerifyNonAdjacent, Presentable, OwnSupport, SignedByMoreThan, SignedByAtMost;
    AdjacentExactly(p, trusted.header, b);
    NonAdjacentExactly(p, trusted.header, trusted.vals, b);
  }

  /** Expiry is reported exactly for a trusted header out of its trusting period. */
  lemma ExpiredExactly(p: Params, trusted: LightBlock, b: LightBlock)
    ensures Verify(p, trusted, b) == Expired <==> trusted.header.time + p.trustingPeriod <= p.now
  {
    hide CommitLight, CommitTrusting, NewHeaderAndValsOk;
  }

  // ----- the chain and its honest validators -----------------------------------------------------

  /** The canonical header and validator set of each height. */
  datatype Chain = Chain(id: nat, header: nat -> Header, vals: nat -> seq<Member>, honest: set<Address>)

  ghost function HonestMembers(c: Chain, vals: seq<Member>): set<nat> {
    set k: nat | k < |vals| && vals[k].address in c.honest
  }

  ghost predicate FewFaulty(c: Chain, vals: seq<Member>) {
    FaultyBelowThird(ValidatorSet(map k: nat | k < |vals| :: vals[k].power, Total(vals)), HonestMembers(c, vals))
  }

  ghost predicate HashesInjective(p: Params) {
    && (forall x: Header, y: Header :: p.headerHash(x) == p.headerHash(y) ==> x == y)
    && (forall x: seq<Member>, y: seq<Member> :: p.crypto.valsHash(x) == p.crypto.valsHash(y) ==> x == y)
  }

  /** A signature that verifies is one the batch verifier takes. */
  ghost predicate BatchTakesGood(p: Params) {
    forall a, m, s :: p.crypto.verifies(a, m, s) ==> p.crypto.addable(s)
  }

  /** The precommits that honest validators sign for this chain are for canonical headers only. */
  ghost predicate HonestSignCanonical(p: Params, c: Chain) {
    forall a, m: SignBytes, s :: p.crypto.verifies(a, m, s) && a in c.honest && m.chain == c.id ==>
      m.blockId.hash == p.headerHash(c.header(m.height))
  }

  ghost predicate Linked(p: Params, c: Chain) {
    forall h: nat ::
      && c.header(h).height == h && c.header(h).chain == c.id
      && c.header(h).validatorsHash == p.crypto.valsHash(c.vals(h))
      && c.header(h).nextValidatorsHash == p.crypto.valsHash(c.vals(h + 1))
      && FewFaulty(c, c.vals(h))
  }

  ghost predicate SafeChain(p: Params, c: Chain) {
    HashesInjective(p) && BatchTakesGood(p) && HonestSignCanonical(p, c)
    && Linked(p, c) && ValidTrustLevel(p.trustLevel)
  }

  ghost predicate Canonical(c: Chain, b: LightBlock) {
    b.header == c.header(b.header.height) && b.vals == c.vals(b.header.height)
  }

  /** More than a third of a canonical validator set includes an honest signer, so the signed block is canonical. */
  lemma SignedByThird(p: Params, c: Chain, check: Check, h: nat)
    requires SafeChain(p, c) && check.crypto == p.crypto && check.Valid() && check.vals == c.vals(h)
    requires check.chain == c.id
    requires 3 * Power(check.Powers().powers, check.Signers()) > Total(check.vals)
    ensures check.commit.blockId.hash == p.headerHash(c.header(check.commit.height))
  {
    assert FewFaulty(c, check.vals);
    assert check.Powers() == ValidatorSet(map k: nat | k < |check.vals| :: check.vals[k].power, Total(check.vals));
    var k := HonestAboveThird(check.Powers(), HonestMembers(c, check.vals), check.Signers());
    var i: nat :| i < |check.commit.sigs| && check.Considered(i) && check.Verifies(i) && check.Signer(i).value == k;
    assert p.crypto.verifies(check.vals[k].address, check.Message(i), check.commit.sigs[i].signature);
  }

  lemma WellFormedIsLawful(p: Params, b: LightBlock, check: Check)
    requires BatchTakesGood(p) && check.crypto == p.crypto && check.commit == b.commit && check.Valid()
    requires forall s <- b.commit.sigs :: p.crypto.wellFormed(s)
    ensures check.Lawful()
  {
  }

  lemma CanonicalByHash(p: Params, c: Chain, trusted: Header, b: LightBlock)
    requires SafeChain(p, c) && NewHeaderAndValsOk(p, trusted, b)
    requires b.commit.blockId.hash == p.headerHash(c.header(b.commit.height))
    ensures Canonical(c, b)
  {
  }

  lemma AdjacentIsSound(p: Params, c: Chain, trusted: LightBlock, b: LightBlock)
    requires SafeChain(p, c) && Canonical(c, trusted) && VerifyAdjacent(p, trusted.header, b) == Trusted
    ensures b.commit.blockId.hash == p.headerHash(c.header(b.commit.height))
  {
    assert b.vals == c.vals(b.header.height);
    var check := Check(p.crypto, trusted.header.chain, b.vals, b.commit, Total(b.vals) * 2 / 3, true);
    assert trusted.header.chain == c.id;
    hide SafeChain, Power, Check.Run;
    WellFormedIsLawful(p, b, check) by { TakeApart(p, c); }
    RunIsSound(check);
    SignedByThird(p, c, check, b.header.height);
  }

  lemma NonAdjacentIsSound(p: Params, c: Chain, trusted: LightBlock, b: LightBlock)
    requires SafeChain(p, c) && Canonical(c, trusted)
    requires VerifyNonAdjacent(p, trusted.header, trusted.vals, b) == Trusted
    ensures b.commit.blockId.hash == p.headerHash(c.header(b.commit.height))
  {
    assert c.header(trusted.header.height).chain == c.id;
    hide SafeChain, Power, Check.Run, ValidTrustLevel;
    TakeApart(p, c);
    var check := TrustingCheck(p.crypto, trusted.header.chain, trusted.vals, b.commit, p.trustLevel);
    WellFormedIsLawful(p, b, check);
    TrustingIsSound(check, p.trustLevel);
    SignedByThird(p, c, check, trusted.header.height);
  }

  /** A block that passes the check against a canonical one is canonical. */
  lemma VerifyIsSound(p: Params, c: Chain, trusted: LightBlock, b: LightBlock)
    requires SafeChain(p, c) && Canonical(c, trusted) && Verify(p, trusted, b) == Trusted
    ensures Canonical(c, b) && trusted.header.height < b.header.height && trusted.header.time < b.header.time
    ensures p.now < trusted.header.time + p.trustingPeriod && b.header.time < p.now + p.maxClockDrift
  {
    hide SafeChain, CommitLight, CommitTrusting;
    if b.header.height == trusted.header.height + 1 {
      AdjacentIsSound(p, c, trusted, b);
    } else {
      NonAdjacentIsSound(p, c, trusted, b);
    }
    CanonicalByHash(p, c, trusted.header, b);
  }

  lemma TakeApart(p: Params, c: Chain)
    requires SafeChain(p, c)
    ensures BatchTakesGood(p) && ValidTrustLevel(p.trustLevel)
  {
  }

  /** More than two thirds of the block's own validators signed it, and it belongs to the trusted chain. */
  lemma AcceptedBySupermajority(p: Params, trusted: LightBlock, b: LightBlock)
    requires BatchTakesGood(p) && Verify(p, trusted, b) == Trusted
    ensures b.header.chain == trusted.header.chain && b.header.validatorsHash == p.crypto.valsHash(b.vals)
    ensures var c := OwnCheck(p, b); c.Valid() && 3 * Power(c.Powers().powers, c.Signers()) > 2 * Total(b.vals)
  {
    hide CommitTrusting, Power;
    var c := OwnCheck(p, b);
    assert CommitLight(p.crypto, b.header.chain, b.vals, b.commit.blockId, b.header.height, b.commit) == Accepted;
    WellFormedIsLawful(p, b, c);
    RunIsSound(c);
  }

  function OwnCheck(p: Params, b: LightBlock): Check {
    Check(p.crypto, b.header.chain, b.vals, b.commit, Total(b.vals) * 2 / 3, true)
  }

  /** Only a non-adjacent block can fail for lack of trust, so a bisection always has room between the two. */
  lemma LackOfTrustLeavesRoom(p: Params, trusted: LightBlock, b: LightBlock)
    requires Verify(p, trusted, b) == CantBeTrusted
    ensures trusted.header.height + 2 <= b.header.height
  {
  }
}
