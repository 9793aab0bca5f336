/** Commits and the checks of their signatures by a validator set (types/validation.go). */
module CommitVerification {
  import opened Options
  import opened VotingPower

  type Address = nat
  type Hash = nat

  const MAX_INT64: nat := 0x7FFF_FFFF_FFFF_FFFF
  const UINT64_RANGE: nat := 0x1_0000_0000_0000_0000

  datatype Member = Member(address: Address, power: nat)
  datatype BlockId = BlockId(hash: Hash, parts: Hash)
  datatype Flag = Absent | ForBlock | ForNil
  datatype CommitSig = CommitSig(flag: Flag, address: Address, time: int, signature: nat)
  datatype Commit = Commit(height: nat, round: int, blockId: BlockId, sigs: seq<CommitSig>)
  datatype Fraction = Fraction(numerator: nat, denominator: nat)

  /** What a validator signs for its precommit. */
  datatype SignBytes = SignBytes(chain: nat, height: nat, round: int, blockId: BlockId, time: int)

  /** The cryptography the checks rely on. A key is identified with its address. */
  datatype Crypto = Crypto(
    verifies: (Address, SignBytes, nat) -> bool,
    wellFormed: CommitSig -> bool,                    // CommitSig.ValidateBasic
    addable: nat -> bool,                             // accepted by the batch verifier
    batches: seq<Member> -> bool,                     // keys are of one type that supports batching
    valsHash: seq<Member> -> Hash)

  datatype Verdict = Accepted | NotEnoughPower | WrongSignature | DoubleVote | Malformed | Mismatch | Overflow

  function Total(vals: seq<Member>): nat {
    if vals == [] then 0 else Total(vals[..|vals| - 1]) + vals[|vals| - 1].power
  }

  /** First validator with that address. */
  function ByAddress(vals: seq<Member>, a: Address, from: nat := 0): (r: Option<nat>)
    requires from <= |vals|
    ensures r.Some? ==> from <= r.value < |vals| && vals[r.value].address == a
    ensures r.None? ==> forall k :: from <= k < |vals| ==> vals[k].address != a
    decreases |vals| - from
  {
    if from == |vals| then None
    else if vals[from].address == a then Some(from)
    else ByAddress(vals, a, from + 1)
  }

  datatype Why = AtEnd | Twice | Unaddable | Enough
  datatype Stop = Stop(at: nat, why: Why)

  /** The inputs of one check: whose signatures, on what, and how much power must be exceeded. */
  datatype Check = Check(crypto: Crypto, chain: nat, vals: seq<Member>, commit: Commit, needed: nat, byIndex: bool) {
    predicate Valid() {
      byIndex ==> |commit.sigs| == |vals|
    }

    /** The validator a signature is checked against; none means it is skipped. */
    function Signer(i: nat): (r: Option<nat>)
      requires Valid() && i < |commit.sigs|
      ensures r.Some? ==> r.value < |vals|
    {
      if byIndex then Some(i) else ByAddress(vals, commit.sigs[i].address)
    }

    /** Signature `i` is for the block and belongs to one of the validators. */
    predicate Considered(i: nat)
      requires Valid() && i < |commit.sigs|
    {
      commit.sigs[i].flag == ForBlock && Signer(i).Some?
    }

    function Message(i: nat): SignBytes
      requires i < |commit.sigs|
    {
      SignBytes(chain, commit.height, commit.round, commit.blockId, commit.sigs[i].time)
    }

    predicate Verifies(i: nat)
      requires Valid() && i < |commit.sigs| && Considered(i)
    {
      crypto.verifies(vals[Signer(i).value].address, Message(i), commit.sigs[i].signature)
    }

    /** verifyCommitSingle from signature `i` on: stops at the first fault, and as soon as the power suffices. */
    function Single(i: nat, seen: set<nat>, tally: nat): Verdict
      requires Valid() && i <= |commit.sigs|
      decreases |commit.sigs| - i
    {
      if i == |commit.sigs| then if tally <= needed then NotEnoughPower else Accepted
      else if commit.sigs[i].flag != ForBlock then Single(i + 1, seen, tally)
      else if !crypto.wellFormed(commit.sigs[i]) then Malformed
      else if Signer(i).None? then Single(i + 1, seen, tally)
      else
        var k := Signer(i).value;
        if !byIndex && k in seen then DoubleVote
        else if !Verifies(i) then WrongSignature
        else if tally + vals[k].power > needed then Accepted
        else Single(i + 1, seen + {k}, tally + vals[k].power)
    }

    /** verifyCommitBatch from signature `i` on: collects first, and checks the whole batch `good` at the end. */
    function Batch(i: nat, seen: set<nat>, tally: nat, good: bool): Verdict
      requires Valid() && i <= |commit.sigs|
      decreases |commit.sigs| - i
    {
      if i == |commit.sigs| then BatchEnd(tally, good)
      else if !Considered(i) then Batch(i + 1, seen, tally, good)
      else
        var k := Signer(i).value;
        if !byIndex && k in seen then DoubleVote
        else if !crypto.addable(commit.sigs[i].signature) then Malformed
        else if tally + vals[k].power > needed then BatchEnd(tally + vals[k].power, good && Verifies(i))
        else Batch(i + 1, seen + {k}, tally + vals[k].power, good && Verifies(i))
    }

    function BatchEnd(tally: nat, good: bool): Verdict {
      if tally <= needed then NotEnoughPower else if good then Accepted else WrongSignature
    }

    /** Where the batch stops collecting, which depends on no signature being right, and why. */
    function StopOf(i: nat, seen: set<nat>, tally: nat): (r: Stop)
      requires Valid() && i <= |commit.sigs|
      ensures i <= r.at <= |commit.sigs| && (r.why == AtEnd <==> r.at == |commit.sigs|)
      ensures r.why != AtEnd ==> Considered(r.at)
      decreases |commit.sigs| - i
    {
      if i == |commit.sigs| then Stop(i, AtEnd)
      else if !Considered(i) then StopOf(i + 1, seen, tally)
      else
        var k := Signer(i).value;
        if !byIndex && k in seen then Stop(i, Twice)
        else if !crypto.addable(commit.sigs[i].signature) then Stop(i, Unaddable)
        else if tally + vals[k].power > needed then Stop(i, Enough)
        else StopOf(i + 1, seen + {k}, tally + vals[k].power)
    }

    /** A signature among those from `i` up to `j` is wrong. */
    ghost predicate WrongWithin(i: nat, j: nat)
      requires Valid() && j <= |commit.sigs|
    {
      exists m: nat :: i <= m < j && Considered(m) && !Verifies(m)
    }

    function Run(): Verdict
      requires Valid()
    {
      if |commit.sigs| >= 2 && crypto.batches(vals) then Batch(0, {}, 0, true) else Single(0, {}, 0)
    }

    /**
     * Signatures the batch verifier takes include all that verify, and every signature for the block is well formed.
     */
    ghost predicate Lawful()
      requires Valid()
    {
      forall i: nat :: i < |commit.sigs| && commit.sigs[i].flag == ForBlock ==>
        && crypto.wellFormed(commit.sigs[i])
        && (Considered(i) && Verifies(i) ==> crypto.addable(commit.sigs[i].signature))
    }

    // ----- what an accepted commit proves ------------------------------------------------------

    ghost function Powers(): ValidatorSet {
      ValidatorSet(map k: nat | k < |vals| :: vals[k].power, Total(vals))
    }

    /** Validators whose signature verifies, by index. */
    ghost function Signers(): set<nat>
      requires Valid()
    {
      set i: nat | i < |commit.sigs| && Considered(i) && Verifies(i) :: Signer(i).value
    }

    /** Every distinct validator counted so far has signed. */
    ghost predicate Counted(i: nat, seen: set<nat>, tally: nat)
      requires Valid()
    {
      && i <= |commit.sigs| && seen <= Signers() && tally == Power(Powers().powers, seen)
      && (byIndex ==> forall k <- seen :: k < i)
    }
  }

  lemma CountOne(c: Check, i: nat, seen: set<nat>, tally: nat)
    requires c.Valid() && c.Counted(i, seen, tally) && i < |c.commit.sigs| && c.Considered(i) && c.Verifies(i)
    requires c.byIndex || c.Signer(i).value !in seen
    ensures var k := c.Signer(i).value; c.Counted(i + 1, seen + {k}, tally + c.vals[k].power)
  {
    var k := c.Signer(i).value;
    PowerAdd(c.Powers().powers, seen, k);
  }

  /** An accepted commit carries verified signatures of distinct validators that hold more power than needed. */
  lemma {:induction false} SingleIsSound(c: Check, i: nat, seen: set<nat>, tally: nat)
    requires c.Valid() && c.Counted(i, seen, tally) && c.Single(i, seen, tally) == Accepted
    ensures Power(c.Powers().powers, c.Signers()) > c.needed
    decreases |c.commit.sigs| - i
  {
    hide Power;
    if i == |c.commit.sigs| {
      PowerMonotone(c.Powers().powers, seen, c.Signers());
    } else if c.Considered(i) {
      CountOne(c, i, seen, tally);
      var k := c.Signer(i).value;
      if tally + c.vals[k].power > c.needed {
        PowerMonotone(c.Powers().powers, seen + {k}, c.Signers());
      } else {
        SingleIsSound(c, i + 1, seen + {k}, tally + c.vals[k].power);
      }
    } else {
      SingleIsSound(c, i + 1, seen, tally);
    }
  }

  /** No validator signs twice and every signature for the block is right. */
  ghost predicate Clean(c: Check)
    requires c.Valid()
  {
    && (forall i: nat :: i < |c.commit.sigs| && c.Considered(i) ==> c.Verifies(i))
    && (forall i: nat, j: nat :: i < j < |c.commit.sigs| && c.Considered(i) && c.Considered(j) ==>
        c.Signer(i) != c.Signer(j))
  }

  /** On such a commit the answer is exactly whether the signers hold more power than needed. */
  lemma {:induction false} SingleIsExact(c: Check, i: nat, seen: set<nat>, tally: nat)
    requires c.Valid() && c.Lawful() && Clean(c) && c.Counted(i, seen, tally) && tally <= c.needed
    requires seen == set j: nat | j < i && c.Considered(j) :: c.Signer(j).value
    ensures c.Single(i, seen, tally) ==
            if Power(c.Powers().powers, c.Signers()) > c.needed then Accepted else NotEnoughPower
    decreases |c.commit.sigs| - i
  {
    hide Power;
    if i == |c.commit.sigs| {
      assert seen == c.Signers();
    } else if c.Considered(i) {
      CountOne(c, i, seen, tally);
      var k := c.Signer(i).value;
      if tally + c.vals[k].power > c.needed {
        PowerMonotone(c.Powers().powers, seen + {k}, c.Signers());
      } else {
        SingleIsExact(c, i + 1, seen + {k}, tally + c.vals[k].power);
      }
    } else {
      SingleIsExact(c, i + 1, seen, tally);
    }
  }

  /** The batch accepts exactly the commits that the one-by-one check accepts. */
  lemma {:induction false} BatchAcceptsAsSingle(c: Check, i: nat, seen: set<nat>, tally: nat, good: bool)
    requires c.Valid() && c.Lawful() && i <= |c.commit.sigs| && tally <= c.needed
    ensures c.Batch(i, seen, tally, good) == Accepted <==> good && c.Single(i, seen, tally) == Accepted
    decreases |c.commit.sigs| - i
  {
    if i < |c.commit.sigs| {
      if c.Considered(i) {
        var k := c.Signer(i).value;
        if tally + c.vals[k].power <= c.needed {
          BatchAcceptsAsSingle(c, i + 1, seen + {k}, tally + c.vals[k].power, good && c.Verifies(i));
        }
      } else {
        BatchAcceptsAsSingle(c, i + 1, seen, tally, good);
      }
    }
  }

  /**
   * The two differ in the error they report. When the batch reports too little power, the one-by-one check reports the
   * same exactly if every signature it looks at is right, and a wrong signature otherwise.
   */
  lemma {:induction false} BatchReportsPowerFirst(c: Check, i: nat, seen: set<nat>, tally: nat, good: bool)
    requires c.Valid() && c.Lawful() && i <= |c.commit.sigs| && c.Batch(i, seen, tally, good) == NotEnoughPower
    ensures c.Single(i, seen, tally) ==
            if forall j: nat :: i <= j < |c.commit.sigs| && c.Considered(j) ==> c.Verifies(j) then NotEnoughPower
            else WrongSignature
    decreases |c.commit.sigs| - i
  {
    if i < |c.commit.sigs| {
      if c.Considered(i) {
        var k := c.Signer(i).value;
        BatchReportsPowerFirst(c, i + 1, seen + {k}, tally + c.vals[k].power, good && c.Verifies(i));
      } else {
        BatchReportsPowerFirst(c, i + 1, seen, tally, good);
      }
    }
  }

  lemma WrongFrom(c: Check, i: nat, j: nat)
    requires c.Valid() && i < j <= |c.commit.sigs|
    ensures c.WrongWithin(i, j) <==> (c.Considered(i) && !c.Verifies(i)) || c.WrongWithin(i + 1, j)
  {
  }

  lemma NoneWrongWithin(c: Check, i: nat)
    requires c.Valid() && i <= |c.commit.sigs|
    ensures !c.WrongWithin(i, i)
  {
  }

  lemma {:induction false} BatchVerdict(c: Check, i: nat, seen: set<nat>, tally: nat, good: bool)
    requires c.Valid() && i <= |c.commit.sigs| && tally <= c.needed
    ensures var s := c.StopOf(i, seen, tally);
            c.Batch(i, seen, tally, good) ==
            match s.why
            case AtEnd => NotEnoughPower
            case Twice => DoubleVote
            case Unaddable => Malformed
            case Enough => if good && !c.WrongWithin(i, s.at + 1) then Accepted else WrongSignature
    decreases |c.commit.sigs| - i
  {
    hide Check.WrongWithin, Check.Verifies, Check.Signer;
    var s := c.StopOf(i, seen, tally);
    if s.why == Enough {
      WrongFrom(c, i, s.at + 1);
      assert s.at == i ==> !c.WrongWithin(i + 1, i + 1) by { NoneWrongWithin(c, i + 1); }
    }
    if i < |c.commit.sigs| {
      if c.Considered(i) {
        var k := c.Signer(i).value;
        if tally + c.vals[k].power <= c.needed {
          BatchVerdict(c, i + 1, seen + {k}, tally + c.vals[k].power, good && c.Verifies(i));
        }
      } else {
        BatchVerdict(c, i + 1, seen, tally, good);
      }
    }
  }

  lemma {:induction false} SingleVerdict(c: Check, i: nat, seen: set<nat>, tally: nat)
    requires c.Valid() && c.Lawful() && i <= |c.commit.sigs| && tally <= c.needed
    ensures var s := c.StopOf(i, seen, tally);
            c.Single(i, seen, tally) ==
            if c.WrongWithin(i, s.at) then WrongSignature else
            match s.why
            case AtEnd => NotEnoughPower
            case Twice => DoubleVote
            case Unaddable => WrongSignature
            case Enough => if c.Verifies(s.at) then Accepted else WrongSignature
    decreases |c.commit.sigs| - i
  {
    hide Check.WrongWithin, Check.Verifies, Check.Signer;
    NoneWrongWithin(c, i);
    if i < c.StopOf(i, seen, tally).at {
      WrongFrom(c, i, c.StopOf(i, seen, tally).at);
    }
    if i < |c.commit.sigs| {
      if c.Considered(i) {
        var k := c.Signer(i).value;
        if tally + c.vals[k].power <= c.needed {
          SingleVerdict(c, i + 1, seen + {k}, tally + c.vals[k].power);
        }
      } else {
        SingleVerdict(c, i + 1, seen, tally);
      }
    }
  }

  /**
   * The two checks answer alike exactly when the power suffices before the batch stops for another reason, or when the
   * batch takes every signature up to its stop and all of them are right.
   */
  lemma BatchAnswersAsSingle(c: Check)
    requires c.Valid() && c.Lawful()
    ensures var s := c.StopOf(0, {}, 0);
            c.Batch(0, {}, 0, true) == c.Single(0, {}, 0) <==>
            s.why == Enough || (s.why != Unaddable && !c.WrongWithin(0, s.at))
  {
    BatchVerdict(c, 0, {}, 0, true);
    SingleVerdict(c, 0, {}, 0);
  }

  /** A commit by two validators of power 1 each; signature 1 is right and any other is wrong. */
  function SmallCheck(sigs: seq<CommitSig>): (c: Check)
    ensures c.Valid() && c.Lawful()
  {
    Check(Crypto((_, _, s) => s == 1, _ => true, s => s < 3, _ => true, _ => 0), 0, [Member(10, 1), Member(11, 1)],
          Commit(1, 0, BlockId(1, 1), sigs), 5, false)
  }

  /** Inputs on which they differ, one for each way the batch stops without enough power. */
  lemma BatchDiffers()
    ensures var wrong, right := CommitSig(ForBlock, 10, 0, 2), CommitSig(ForBlock, 11, 0, 1);
            var few, twice, bad := SmallCheck([wrong, right]), SmallCheck([wrong, right, right]),
                SmallCheck([right, wrong.(signature := 3)]);
            && few.Batch(0, {}, 0, true) == NotEnoughPower && few.Single(0, {}, 0) == WrongSignature
            && twice.Batch(0, {}, 0, true) == DoubleVote && twice.Single(0, {}, 0) == WrongSignature
            && bad.Batch(0, {}, 0, true) == Malformed && bad.Single(0, {}, 0) == WrongSignature
  {
    var wrong, right := CommitSig(ForBlock, 10, 0, 2), CommitSig(ForBlock, 11, 0, 1);
    var none: set<nat> := {};
    assert none + {0} == {0} && none + {1} == {1} && {0} + {1} == {0, 1};
    var few := SmallCheck([wrong, right]);
    assert few.Batch(1, {0}, 1, false) == few.Batch(2, {0, 1}, 2, false) == NotEnoughPower;
    var twice := SmallCheck([wrong, right, right]);
    assert twice.Batch(1, {0}, 1, false) == twice.Batch(2, {0, 1}, 2, false) == DoubleVote;
    var bad := SmallCheck([right, wrong.(signature := 3)]);
    assert bad.Batch(1, {1}, 1, true) == Malformed && bad.Single(1, {1}, 1) == WrongSignature;
  }

  // ----- exactly which commits are accepted --------------------------------------------------------

  /** The validators named by the first `m` signatures that count. */
  ghost function Claimed(c: Check, m: nat): set<nat>
    requires c.Valid() && m <= |c.commit.sigs|
  {
    set i: nat | i < m && c.Considered(i) :: c.Signer(i).value
  }

  ghost predicate AllRight(c: Check, m: nat)
    requires c.Valid() && m <= |c.commit.sigs|
  {
    forall i: nat :: i < m && c.Considered(i) ==> c.Verifies(i)
  }

  ghost predicate AllTaken(c: Check, m: nat)
    requires c.Valid() && m <= |c.commit.sigs|
  {
    forall i: nat :: i < m && c.Considered(i) ==> c.crypto.addable(c.commit.sigs[i].signature)
  }

  ghost predicate AllDistinct(c: Check, m: nat)
    requires c.Valid() && m <= |c.commit.sigs|
  {
    forall i: nat, j: nat :: i < j < m && c.Considered(i) && c.Considered(j) ==> c.Signer(i) != c.Signer(j)
  }

  ghost function ClaimedPower(c: Check, m: nat): nat
    requires c.Valid() && m <= |c.commit.sigs|
  {
    Power(c.Powers().powers, Claimed(c, m))
  }

  /** The first `m` signatures are right, by distinct validators, and by enough of them. */
  ghost predicate Suffices(c: Check, m: nat, needed: int)
    requires c.Valid()
  {
    m <= |c.commit.sigs| && AllRight(c, m) && AllDistinct(c, m) && ClaimedPower(c, m) > needed
  }

  ghost predicate SomeSuffice(c: Check, needed: int)
    requires c.Valid()
  {
    exists m: nat :: Suffices(c, m, needed)
  }

  lemma ClaimNext(c: Check, i: nat)
    requires c.Valid() && i < |c.commit.sigs|
    ensures !c.Considered(i) ==> Claimed(c, i + 1) == Claimed(c, i) && ClaimedPower(c, i + 1) == ClaimedPower(c, i)
    ensures c.Considered(i) && c.Signer(i).value !in Claimed(c, i) ==>
              && Claimed(c, i + 1) == Claimed(c, i) + {c.Signer(i).value}
              && ClaimedPower(c, i + 1) == ClaimedPower(c, i) + c.vals[c.Signer(i).value].power
    ensures c.byIndex && c.Considered(i) ==> c.Signer(i).value !in Claimed(c, i)
  {
    if c.Considered(i) {
      var k := c.Signer(i).value;
      assert Claimed(c, i + 1) == Claimed(c, i) + {k};
      if k !in Claimed(c, i) {
        PowerAdd(c.Powers().powers, Claimed(c, i), k);
      }
    } else {
      assert Claimed(c, i + 1) == Claimed(c, i);
    }
  }

  lemma ClaimsGrow(c: Check, i: nat, j: nat)
    requires c.Valid() && i <= j <= |c.commit.sigs|
    ensures ClaimedPower(c, i) <= ClaimedPower(c, j)
  {
    PowerMonotone(c.Powers().powers, Claimed(c, i), Claimed(c, j));
  }

  /** No prefix up to `i` suffices if the whole of it does not. */
  lemma NoneSuffices(c: Check, i: nat, m: nat)
    requires c.Valid() && m <= i <= |c.commit.sigs| && ClaimedPower(c, i) <= c.needed
    ensures !Suffices(c, m, c.needed)
  {
    hide ClaimedPower;
    ClaimsGrow(c, m, i);
  }

  /** The state of either loop before signature `i`. */
  ghost predicate LoopState(c: Check, i: nat, seen: set<nat>, tally: nat)
    requires c.Valid()
  {
    && i <= |c.commit.sigs| && AllDistinct(c, i)
    && seen == Claimed(c, i) && tally == ClaimedPower(c, i) && tally <= c.needed
  }

  lemma LoopNext(c: Check, i: nat, seen: set<nat>, tally: nat)
    requires c.Valid() && LoopState(c, i, seen, tally) && i < |c.commit.sigs|
    ensures !c.Considered(i) ==> LoopState(c, i + 1, seen, tally)
    ensures c.Considered(i) && c.Signer(i).value in seen ==> !c.byIndex && !AllDistinct(c, i + 1)
    ensures c.Considered(i) && c.Signer(i).value !in seen ==>
              var k := c.Signer(i).value;
              && AllDistinct(c, i + 1) && ClaimedPower(c, i + 1) == tally + c.vals[k].power
              && (tally + c.vals[k].power <= c.needed ==> LoopState(c, i + 1, seen + {k}, tally + c.vals[k].power))
  {
    hide ClaimedPower;
    ClaimNext(c, i);
  }

  /** One by one, a commit is accepted exactly if some of its first signatures suffice. */
  lemma {:induction false} SingleExactly(c: Check, i: nat, seen: set<nat>, tally: nat)
    requires c.Valid() && c.Lawful() && LoopState(c, i, seen, tally) && AllRight(c, i)
    ensures c.Single(i, seen, tally) == Accepted <==> SomeSuffice(c, c.needed)
    ensures c.Single(i, seen, tally) == NotEnoughPower <==>
            var n := |c.commit.sigs|; AllRight(c, n) && AllDistinct(c, n) && ClaimedPower(c, n) <= c.needed
    decreases |c.commit.sigs| - i
  {
    hide ClaimedPower, Suffices;
    var n := |c.commit.sigs|;
    if i == n {
      NoneFrom(c, i);
    } else {
      LoopNext(c, i, seen, tally);
      if !c.Considered(i) {
        SingleExactly(c, i + 1, seen, tally);
      } else {
        var k := c.Signer(i).value;
        if k in seen || !c.Verifies(i) {
          NoneBeyond(c, i);
        } else if tally + c.vals[k].power > c.needed {
          assert Suffices(c, i + 1, c.needed) by { PrefixSuffices(c, i + 1); }
          ClaimsGrow(c, i + 1, n);
        } else {
          SingleExactly(c, i + 1, seen + {k}, tally + c.vals[k].power);
        }
      }
    }
  }

  lemma PrefixSuffices(c: Check, m: nat)
    requires c.Valid() && m <= |c.commit.sigs| && AllRight(c, m) && AllDistinct(c, m) && ClaimedPower(c, m) > c.needed
    ensures Suffices(c, m, c.needed)
  {
  }

  lemma NoneFrom(c: Check, i: nat)
    requires c.Valid() && i == |c.commit.sigs| && ClaimedPower(c, i) <= c.needed
    ensures !SomeSuffice(c, c.needed)
  {
    forall m: nat | m <= i
      ensures !Suffices(c, m, c.needed)
    {
      NoneSuffices(c, i, m);
    }
  }

  /** A fault at signature `i` rules out all longer prefixes. */
  lemma NoneBeyond(c: Check, i: nat)
    requires c.Valid() && i < |c.commit.sigs| && ClaimedPower(c, i) <= c.needed
    requires !AllRight(c, i + 1) || !AllDistinct(c, i + 1)
    ensures !SomeSuffice(c, c.needed) && var n := |c.commit.sigs|; !AllRight(c, n) || !AllDistinct(c, n)
  {
    forall m: nat | m <= |c.commit.sigs|
      ensures !Suffices(c, m, c.needed)
    {
      if m <= i {
        NoneSuffices(c, i, m);
      }
    }
  }

  /** The batch reports too little power exactly if it can take all signatures and they are by too few validators. */
  lemma {:induction false} BatchNotEnough(c: Check, i: nat, seen: set<nat>, tally: nat, good: bool)
    requires c.Valid() && LoopState(c, i, seen, tally) && AllTaken(c, i)
    ensures c.Batch(i, seen, tally, good) == NotEnoughPower <==>
            var n := |c.commit.sigs|; AllTaken(c, n) && AllDistinct(c, n) && ClaimedPower(c, n) <= c.needed
    decreases |c.commit.sigs| - i
  {
    hide ClaimedPower;
    if i < |c.commit.sigs| {
      LoopNext(c, i, seen, tally);
      if !c.Considered(i) {
        BatchNotEnough(c, i + 1, seen, tally, good);
      } else {
        var k := c.Signer(i).value;
        if k in seen || !c.crypto.addable(c.commit.sigs[i].signature) {
        } else if tally + c.vals[k].power > c.needed {
          ClaimsGrow(c, i + 1, |c.commit.sigs|);
        } else {
          BatchNotEnough(c, i + 1, seen + {k}, tally + c.vals[k].power, good && c.Verifies(i));
        }
      }
    }
  }

  lemma LoopStart(c: Check)
    requires c.Valid()
    ensures LoopState(c, 0, {}, 0) && AllRight(c, 0) && AllTaken(c, 0)
  {
    assert Claimed(c, 0) == {};
  }

  /**
   * Either way, a commit is accepted exactly if some of its first signatures are right, distinct and powerful enough.
   * Too little power is reported exactly if all its signatures are distinct and too few, and right, or in a batch at
   * least of a form it takes.
   */
  lemma RunExactly(c: Check)
    requires c.Valid() && c.Lawful()
    ensures c.Run() == Accepted <==> SomeSuffice(c, c.needed)
    ensures c.Run() == NotEnoughPower <==> TooFew(c, c.needed)
  {
    hide ClaimedPower, SomeSuffice;
    LoopStart(c);
    SingleExactly(c, 0, {}, 0);
    BatchNotEnough(c, 0, {}, 0, true);
    BatchAcceptsAsSingle(c, 0, {}, 0, true);
  }

  ghost predicate TooFew(c: Check, needed: int)
    requires c.Valid()
  {
    var n := |c.commit.sigs|;
    && AllDistinct(c, n) && ClaimedPower(c, n) <= needed
    && if n >= 2 && c.crypto.batches(c.vals) then AllTaken(c, n) else AllRight(c, n)
  }

  lemma RunIsSound(c: Check)
    requires c.Valid() && c.Lawful() && c.Run() == Accepted
    ensures Power(c.Powers().powers, c.Signers()) > c.needed
  {
    BatchAcceptsAsSingle(c, 0, {}, 0, true);
    SingleIsSound(c, 0, {}, 0);
  }

  lemma {:induction false} TotalIsPower(vals: seq<Member>)
    ensures var powers := map k: nat | k < |vals| :: vals[k].power; Power(powers, powers.Keys) == Total(vals)
  {
    var powers := map k: nat | k < |vals| :: vals[k].power;
    if vals == [] {
      assert powers.Keys == {};
    } else {
      var n := |vals| - 1;
      var rest := map k: nat | k < n :: vals[..n][k].power;
      TotalIsPower(vals[..n]);
      assert powers.Keys == rest.Keys + {n};
      PowerAdd(powers, rest.Keys, n);
      PowerSame(powers, rest, rest.Keys);
    }
  }

  lemma {:induction false} PowerSame(p: map<Validator, nat>, q: map<Validator, nat>, s: set<Validator>)
    requires forall v <- s :: Weight(p, v) == Weight(q, v)
    ensures Power(p, s) == Power(q, s)
    decreases s
  {
    if s != {} {
      var v :| v in s;
      PowerWithout(p, s, v);
      PowerWithout(q, s, v);
      PowerSame(p, q, s - {v});
    }
  }

  // ----- the loops of the source ---------------------------------------------------------------

  method VerifyCommitSingle(c: Check) returns (r: Verdict)
    requires c.Valid()
    ensures r == c.Single(0, {}, 0)
  {
    var seen: set<nat> := {};
    var tally: nat := 0;
    for i := 0 to |c.commit.sigs|
      invariant c.Single(0, {}, 0) == c.Single(i, seen, tally)
    {
      var sig := c.commit.sigs[i];
      if sig.flag != ForBlock {
        continue;
      }
      if !c.crypto.wellFormed(sig) {
        return Malformed;
      }
      var signer := c.Signer(i);
      if signer.None? {
        continue;
      }
      if !c.byIndex && signer.value in seen {
        return DoubleVote;
      }
      seen := seen + {signer.value};
      if !c.crypto.verifies(c.vals[signer.value].address, c.Message(i), sig.signature) {
        return WrongSignature;
      }
      tally := tally + c.vals[signer.value].power;
      if tally > c.needed {
        return Accepted;
      }
    }
    return if tally <= c.needed then NotEnoughPower else Accepted;
  }

  method VerifyCommitBatch(c: Check) returns (r: Verdict)
    requires c.Valid()
    ensures r == c.Batch(0, {}, 0, true)
  {
    var seen: set<nat> := {};
    var tally: nat := 0;
    var batch: seq<(Address, SignBytes, nat)> := [];
    for i := 0 to |c.commit.sigs|
      invariant c.Batch(0, {}, 0, true) == c.Batch(i, seen, tally, AllVerify(c.crypto, batch))
    {
      var sig := c.commit.sigs[i];
      if sig.flag != ForBlock {
        continue;
      }
      var signer := c.Signer(i);
      if signer.None? {
        continue;
      }
      if !c.byIndex && signer.value in seen {
        return DoubleVote;
      }
      seen := seen + {signer.value};
      if !c.crypto.addable(sig.signature) {
        return Malformed;
      }
      batch := batch + [(c.vals[signer.value].address, c.Message(i), sig.signature)];
      tally := tally + c.vals[signer.value].power;
      if tally > c.needed {
        break;
      }
    }
    if tally <= c.needed {
      return NotEnoughPower;
    }
    return if AllVerify(c.crypto, batch) then Accepted else WrongSignature;
  }

  predicate AllVerify(crypto: Crypto, batch: seq<(Address, SignBytes, nat)>) {
    forall e <- batch :: crypto.verifies(e.0, e.1, e.2)
  }

  // ----- thresholds ----------------------------------------------------------------------------

  /** VerifyCommitLight: more than two thirds of exactly this validator set, looked up by position. */
  function CommitLight(
    crypto: Crypto, chain: nat, vals: seq<Member>, blockId: BlockId, height: nat, commit: Commit): Verdict
  {
    if |vals| != |commit.sigs| || height != commit.height || blockId != commit.blockId then Mismatch
    else Check(crypto, chain, vals, commit, Total(vals) * 2 / 3, true).Run()
  }

  /** Accepted exactly if the commit is for this block and its signers hold more than two thirds of the power. */
  lemma CommitLightExactly(
    crypto: Crypto, chain: nat, vals: seq<Member>, blockId: BlockId, height: nat, commit: Commit, any: nat)
    requires |vals| == |commit.sigs| ==> Check(crypto, chain, vals, commit, any, true).Lawful()
    ensures CommitLight(crypto, chain, vals, blockId, height, commit) == Accepted <==>
            && |vals| == |commit.sigs| && height == commit.height && blockId == commit.blockId
            && SignedByMoreThan(Check(crypto, chain, vals, commit, any, true), Fraction(2, 3))
  {
    if |vals| == |commit.sigs| {
      var c := Check(crypto, chain, vals, commit, Total(vals) * 2 / 3, true);
      var c' := Check(crypto, chain, vals, commit, any, true);
      assert c.Lawful() && c' == c.(needed := any);
      RunExactly(c);
      SameClaims(c, any, Fraction(2, 3));
    }
  }

  /** Some of the first signatures are right, by distinct validators, and by more than that part of the power. */
  ghost predicate SignedByMoreThan(c: Check, part: Fraction)
    requires c.Valid()
  {
    exists m: nat :: MoreThan(c, m, part)
  }

  ghost predicate MoreThan(c: Check, m: nat, part: Fraction)
    requires c.Valid()
  {
    && m <= |c.commit.sigs| && AllRight(c, m) && AllDistinct(c, m)
    && ClaimedPower(c, m) * part.denominator > Total(c.vals) * part.numerator
  }

  /** All signatures are by distinct validators that hold no more than that part of the power. */
  ghost predicate SignedByAtMost(c: Check, part: Fraction)
    requires c.Valid()
  {
    var n := |c.commit.sigs|;
    && AllDistinct(c, n) && ClaimedPower(c, n) * part.denominator <= Total(c.vals) * part.numerator
    && if n >= 2 && c.crypto.batches(c.vals) then AllTaken(c, n) else AllRight(c, n)
  }

  /** If all signatures are right and distinct, both come down to the power of all who signed. */
  lemma CleanCommit(c: Check, part: Fraction)
    requires c.Valid() && c.Lawful() && Clean(c)
    ensures var signed := Power(c.Powers().powers, c.Signers()) * part.denominator;
            && (SignedByMoreThan(c, part) <==> signed > Total(c.vals) * part.numerator)
            && (SignedByAtMost(c, part) <==> signed <= Total(c.vals) * part.numerator)
  {
    var n := |c.commit.sigs|;
    assert Claimed(c, n) == c.Signers();
    assert AllRight(c, n) && AllDistinct(c, n) && AllTaken(c, n);
    hide Power;
    if SignedByMoreThan(c, part) {
      var m: nat :| MoreThan(c, m, part);
      ClaimsGrow(c, m, n);
      MulGrows(part.denominator, ClaimedPower(c, m), ClaimedPower(c, n));
    }
    if ClaimedPower(c, n) * part.denominator > Total(c.vals) * part.numerator {
      assert MoreThan(c, n, part);
    }
  }

  /** The integer threshold of a part of the power is exact. */
  lemma ThresholdOf(total: nat, part: Fraction, power: nat)
    requires 0 < part.denominator
    ensures power > total * part.numerator / part.denominator <==> power * part.denominator > total * part.numerator
  {
    var x, d := total * part.numerator, part.denominator;
    var q := x / d;
    assert q * d <= x < (q + 1) * d;
    if power > q {
      MulGrows(d, q + 1, power);
    } else {
      MulGrows(d, power, q);
    }
  }

  lemma SameClaims(c: Check, any: nat, part: Fraction)
    requires c.Valid() && 0 < part.denominator && c.needed == Total(c.vals) * part.numerator / part.denominator
    ensures var c' := c.(needed := any);
            && c'.Valid() && (SomeSuffice(c, c.needed) <==> SignedByMoreThan(c', part))
            && (TooFew(c, c.needed) <==> SignedByAtMost(c', part))
  {
    var c' := c.(needed := any);
    forall m: nat | m <= |c.commit.sigs|
      ensures Suffices(c, m, c.needed) <==> MoreThan(c', m, part)
      ensures ClaimedPower(c, m) == ClaimedPower(c', m)
    {
      OneClaim(c, any, part, m);
    }
    assert SomeSuffice(c, c.needed) ==> SignedByMoreThan(c', part) by {
      if SomeSuffice(c, c.needed) {
        var m: nat :| Suffices(c, m, c.needed);
        assert MoreThan(c', m, part);
      }
    }
    assert SignedByMoreThan(c', part) ==> SomeSuffice(c, c.needed) by {
      if SignedByMoreThan(c', part) {
        var m: nat :| MoreThan(c', m, part);
        assert Suffices(c, m, c.needed);
      }
    }
    SameForms(c, any, |c.commit.sigs|);
    ThresholdOf(Total(c.vals), part, ClaimedPower(c, |c.commit.sigs|));
  }

  lemma OneClaim(c: Check, any: nat, part: Fraction, m: nat)
    requires c.Valid() && 0 < part.denominator && c.needed == Total(c.vals) * part.numerator / part.denominator
    requires m <= |c.commit.sigs|
    ensures var c' := c.(needed := any);
            (Suffices(c, m, c.needed) <==> MoreThan(c', m, part)) && ClaimedPower(c, m) == ClaimedPower(c', m)
  {
    SameForms(c, any, m);
    hide ClaimedPower;
    ThresholdOf(Total(c.vals), part, ClaimedPower(c, m));
  }

  lemma SameForms(c: Check, any: nat, m: nat)
    requires c.Valid() && m <= |c.commit.sigs|
    ensures var c' := c.(needed := any);
            && AllRight(c, m) == AllRight(c', m) && AllDistinct(c, m) == AllDistinct(c', m)
            && AllTaken(c, m) == AllTaken(c', m) && ClaimedPower(c, m) == ClaimedPower(c', m)
  {
    var c' := c.(needed := any);
    assert forall i: nat :: i < |c.commit.sigs| ==> c'.Considered(i) == c.Considered(i) && c'.Signer(i) == c.Signer(i);
    assert Claimed(c, m) == Claimed(c', m);
  }

  /** VerifyCommitLightTrusting: more than `level` of a validator set that only overlaps, looked up by address. */
  function CommitTrusting(crypto: Crypto, chain: nat, vals: seq<Member>, commit: Commit, level: Fraction): Verdict {
    if level.denominator == 0 || MulOverflows(Total(vals), level.numerator) then Overflow
    else TrustingCheck(crypto, chain, vals, commit, level).Run()
  }

  /** The same of a set that only overlaps, with its level; no answer is possible if the product overflows. */
  lemma CommitTrustingExactly(
    crypto: Crypto, chain: nat, vals: seq<Member>, commit: Commit, level: Fraction, any: nat)
    requires Check(crypto, chain, vals, commit, any, false).Lawful()
    ensures var c, v := Check(crypto, chain, vals, commit, any, false),
            CommitTrusting(crypto, chain, vals, commit, level);
            var fits := level.denominator != 0 && Total(vals) * level.numerator <= MAX_INT64;
            && (v == Accepted <==> fits && SignedByMoreThan(c, level))
            && (v == NotEnoughPower <==> fits && SignedByAtMost(c, level))
  {
    OverflowExactly(Total(vals), level.numerator);
    if level.denominator != 0 && !MulOverflows(Total(vals), level.numerator) {
      var c := TrustingCheck(crypto, chain, vals, commit, level);
      assert c.Lawful() && Check(crypto, chain, vals, commit, any, false) == c.(needed := any);
      RunExactly(c);
      SameClaims(c, any, level);
    }
  }

  lemma OverflowExactly(a: nat, b: nat)
    ensures MulOverflows(a, b) <==> a * b > MAX_INT64
  {
    if a != 0 && b != 0 {
      var q := MAX_INT64 / b;
      assert q * b <= MAX_INT64 < (q + 1) * b;
      if a > q {
        MulGrows(b, q + 1, a);
      } else {
        MulGrows(b, a, q);
      }
    }
  }

  function TrustingCheck(crypto: Crypto, chain: nat, vals: seq<Member>, commit: Commit, level: Fraction): Check
    requires level.denominator != 0
  {
    Check(crypto, chain, vals, commit, Total(vals) * level.numerator / level.denominator, false)
  }

  predicate MulOverflows(a: nat, b: nat) {
    a != 0 && b != 0 && a > MAX_INT64 / b
  }

  /** ValidateTrustLevel; the product is one of unsigned 64-bit integers and wraps around. */
  predicate ValidTrustLevel(level: Fraction) {
    !(level.numerator * 3 % UINT64_RANGE < level.denominator || level.numerator > level.denominator
      || level.denominator == 0)
  }

  /** It accepts only levels in [1/3, 1], and all of them whose numerator can be tripled without wrapping. */
  lemma TrustLevelRange(level: Fraction)
    ensures ValidTrustLevel(level) ==>
              0 < level.denominator <= 3 * level.numerator && level.numerator <= level.denominator
    ensures 3 * level.numerator < UINT64_RANGE ==>
              (ValidTrustLevel(level) <==>
               0 < level.denominator <= 3 * level.numerator && level.numerator <= level.denominator)
  {
    var m := level.numerator * 3;
    if m < UINT64_RANGE {
      assert m % UINT64_RANGE == m;
    } else {
      assert m % UINT64_RANGE <= m;
    }
  }

  /** Where numerator and denominator are positive as signed integers too, these are exactly the levels accepted. */
  lemma TrustLevelExactly(level: Fraction)
    requires level.numerator <= MAX_INT64 && level.denominator <= MAX_INT64
    ensures ValidTrustLevel(level) <==>
            && 0 < level.denominator <= 3 * level.numerator && level.numerator <= level.denominator
            && 3 * level.numerator < UINT64_RANGE
  {
    TrustLevelRange(level);
    var m := level.numerator * 3;
    if UINT64_RANGE <= m {
      assert m % UINT64_RANGE == m - UINT64_RANGE < level.numerator;
    }
  }

  /**
   * The level 1, written with any unsigned 64-bit integer, is turned down exactly when the wrapped product falls below
   * it.
   */
  lemma TrustLevelOne(n: nat)
    requires n < UINT64_RANGE
    ensures ValidTrustLevel(Fraction(n, n)) <==>
            0 < n && (3 * n < UINT64_RANGE || (MAX_INT64 < n && 3 * n < 2 * UINT64_RANGE))
  {
    var m := n * 3;
    if m < UINT64_RANGE {
      assert m % UINT64_RANGE == m;
    } else if m < 2 * UINT64_RANGE {
      assert m % UINT64_RANGE == m - UINT64_RANGE;
    } else {
      assert m % UINT64_RANGE == m - 2 * UINT64_RANGE;
    }
  }

  /** The largest signed integer over itself is such a level; one more over itself is not. */
  lemma TrustLevelOneTurnedDown()
    ensures !ValidTrustLevel(Fraction(MAX_INT64, MAX_INT64)) && ValidTrustLevel(Fraction(MAX_INT64 + 1, MAX_INT64 + 1))
  {
    TrustLevelOne(MAX_INT64);
    TrustLevelOne(MAX_INT64 + 1);
  }

  /** Power above the floor of `total * level` is more than a third of the total. */
  lemma FloorKeepsThird(total: nat, level: Fraction, power: nat)
    requires 0 < level.denominator <= 3 * level.numerator && power > total * level.numerator / level.denominator
    ensures 3 * power > total
  {
    var n, d := level.numerator, level.denominator;
    var q := total * n / d;
    assert d * (q + 1) > total * n;
    assert 3 * (d * power) > total * d by {
      assert d * power >= d * (q + 1) by { MulGrows(d, q + 1, power); }
      assert total * (3 * n) >= total * d by { MulGrows(total, d, 3 * n); }
      assert 3 * (total * n) == total * (3 * n);
    }
    assert d * total < d * (3 * power);
    MulCancels(d, total, 3 * power);
  }

  /** An accepted commit is signed by more than a third of the trusted set, at every admissible trust level. */
  lemma TrustingIsSound(c: Check, level: Fraction)
    requires c.Valid() && c.Lawful() && c.Run() == Accepted && ValidTrustLevel(level)
    requires c.needed == Total(c.vals) * level.numerator / level.denominator
    ensures 3 * Power(c.Powers().powers, c.Signers()) > Total(c.vals)
  {
    TrustLevelRange(level);
    hide *;
    RunIsSound(c);
    FloorKeepsThird(Total(c.vals), level, Power(c.Powers().powers, c.Signers()));
  }

  lemma MulCancels(a: nat, x: int, y: int)
    requires a * x < a * y
    ensures x < y
  {
  }

  lemma MulGrows(a: nat, x: int, y: int)
    requires x <= y
    ensures a * x <= a * y
  {
  }
}
