/** Skipping and sequential verification, and the replacement of providers (light/client.go). */
module LightClient {
  import opened Options
  import opened LightVerifier

  const SKIPPING_NUMERATOR := 9
  const SKIPPING_DENOMINATOR := 16

  type Provider = nat

  /** Benign: no response, block not found, height too high. */
  datatype Response = Found(block: LightBlock) | Benign | Malevolent | Canceled

  /** Answers of the providers, and the order in which concurrent answers of `n` witnesses arrive. */
  datatype Net = Net(ask: (Provider, nat, nat) -> Response, order: (nat, nat) -> seq<nat>) {
    /** A provider checks the height of what it returns; every witness answers once. */
    ghost predicate Valid() {
      && (forall q, t, h :: ask(q, t, h).Found? ==> ask(q, t, h).block.header.height == h)
      && (forall t, n :: Permutation(order(t, n), n))
    }
  }

  ghost predicate Permutation(s: seq<nat>, n: nat) {
    |s| == n && (forall i <- s :: i < n) && (forall i, j :: 0 <= i < j < |s| ==> s[i] != s[j])
  }

  // ----- traces --------------------------------------------------------------------------------

  function Height(b: LightBlock): nat { b.header.height }

  /** From `from` to `to` in strictly growing steps, each accepted by the verifier. */
  predicate ValidTrace(p: Params, from: LightBlock, to: LightBlock, trace: seq<LightBlock>) {
    && |trace| >= 1 && trace[0] == from && trace[|trace| - 1] == to
    && forall i :: 0 <= i < |trace| - 1 ==> Step(p, trace[i], trace[i + 1])
  }

  predicate Step(p: Params, a: LightBlock, b: LightBlock) {
    Height(a) < Height(b) && Verify(p, a, b) == Trusted
  }

  lemma TraceExtends(p: Params, from: LightBlock, mid: LightBlock, to: LightBlock, trace: seq<LightBlock>)
    requires ValidTrace(p, from, mid, trace) && Step(p, mid, to)
    ensures ValidTrace(p, from, to, trace + [to])
  {
    hide Step;
    forall i | 0 <= i < |trace|
      ensures Step(p, (trace + [to])[i], (trace + [to])[i + 1])
    {
      if i < |trace| - 1 {
        assert Step(p, trace[i], trace[i + 1]);
      }
    }
  }

  /** Every block of a trace that starts at a canonical block is canonical. */
  lemma {:induction false} TraceIsCanonical(
    p: Params, c: Chain, from: LightBlock, to: LightBlock, trace: seq<LightBlock>, i: nat)
    requires SafeChain(p, c) && Canonical(c, from) && ValidTrace(p, from, to, trace) && i < |trace|
    ensures Canonical(c, trace[i])
  {
    hide SafeChain, Verify;
    if i > 0 {
      TraceIsCanonical(p, c, from, to, trace, i - 1);
      assert Step(p, trace[i - 1], trace[i - 1 + 1]);
      VerifyIsSound(p, c, trace[i - 1], trace[i]);
    }
  }

  /** Whatever providers two clients ask, they agree on the header of a height they both verified. */
  lemma ClientsAgree(p: Params, q: Params, c: Chain, from1: LightBlock, to1: LightBlock, t1: seq<LightBlock>,
                     from2: LightBlock, to2: LightBlock, t2: seq<LightBlock>)
    requires SafeChain(p, c) && Canonical(c, from1) && ValidTrace(p, from1, to1, t1)
    requires SafeChain(q, c) && Canonical(c, from2) && ValidTrace(q, from2, to2, t2)
    requires Height(to1) == Height(to2)
    ensures to1.header == to2.header && to1.vals == to2.vals
  {
    TraceIsCanonical(p, c, from1, to1, t1, |t1| - 1);
    TraceIsCanonical(q, c, from2, to2, t2, |t2| - 1);
  }

  // ----- bisection -----------------------------------------------------------------------------

  function Pivot(low: nat, high: nat): nat
    requires low <= high
  {
    low + (high - low) * SKIPPING_NUMERATOR / SKIPPING_DENOMINATOR
  }

  /** A pivot was requested because `high` could not be trusted from `low`. */
  datatype Request = Request(low: nat, pivot: nat, high: nat)

  /** Nine sixteenths of the way, and strictly between. */
  predicate Inside(q: Request) {
    q.low < q.pivot < q.high && q.pivot == q.low + (q.high - q.low) * 9 / 16
  }

  lemma PivotIsInside(p: Params, a: LightBlock, b: LightBlock)
    requires Verify(p, a, b) == CantBeTrusted
    ensures Height(a) < Height(b) && Height(a) < Pivot(Height(a), Height(b)) < Height(b)
  {
    LackOfTrustLeavesRoom(p, a, b);
  }

  /** Cached blocks: the target first, then ever lower ones, with repeats next to each other. */
  predicate Descending(cache: seq<LightBlock>) {
    forall i, j :: 0 <= i < j < |cache| ==> cache[i] == cache[j] || Height(cache[i]) > Height(cache[j])
  }

  /** Everything before `depth` has failed, for lack of trust only, against the block verified last. */
  predicate TriedAll(p: Params, verified: LightBlock, cache: seq<LightBlock>, depth: nat)
    requires depth <= |cache|
  {
    forall k :: 0 <= k < depth ==> Verify(p, verified, cache[k]) == CantBeTrusted
  }

  /** Where the search stands. */
  datatype Search = Search(verified: LightBlock, cache: seq<LightBlock>, depth: nat, trace: seq<LightBlock>) {
    ghost predicate Valid(p: Params, trusted: LightBlock, target: LightBlock) {
      && depth < |cache| && cache[0] == target && Descending(cache) && TriedAll(p, verified, cache, depth)
      && ValidTrace(p, trusted, verified, trace)
    }

    function Current(): LightBlock
      requires depth < |cache|
    {
      cache[depth]
    }

    /** The block at `depth` is verified next; what is below it in the cache goes. */
    function Accept(): Search
      requires 0 < depth < |cache|
    {
      Search(cache[depth], cache[..depth], 0, trace + [cache[depth]])
    }

    function Deeper(): Search {
      this.(depth := depth + 1)
    }

    function Fetched(block: LightBlock): Search {
      this.(cache := cache + [block] + [block])
    }
  }

  /** An accepted block is strictly above the verified one and below all that failed before it. */
  lemma AcceptKeeps(p: Params, s: Search, trusted: LightBlock, target: LightBlock)
    requires s.Valid(p, trusted, target) && Verify(p, s.verified, s.Current()) == Trusted
    ensures Height(s.verified) < Height(s.Current()) <= Height(target)
    ensures ValidTrace(p, trusted, s.Current(), s.trace + [s.Current()])
    ensures s.depth > 0 ==> s.Accept().Valid(p, trusted, target)
  {
    assert Step(p, s.verified, s.Current()) by { TrustedIsStep(p, s.verified, s.Current()); }
    hide Verify, ValidTrace;
    TraceExtends(p, trusted, s.verified, s.Current(), s.trace);
  }

  lemma DeeperKeeps(p: Params, s: Search, trusted: LightBlock, target: LightBlock)
    requires s.Valid(p, trusted, target) && Verify(p, s.verified, s.Current()) == CantBeTrusted
    requires s.depth + 1 < |s.cache|
    ensures s.Deeper().Valid(p, trusted, target)
    ensures Height(s.Deeper().Current()) <= Height(s.Current()) <= Height(target)
    ensures Height(s.verified) < Height(s.Current())
  {
    PivotIsInside(p, s.verified, s.Current());
    hide Verify, ValidTrace;
  }

  lemma FetchedKeeps(p: Params, s: Search, trusted: LightBlock, target: LightBlock, block: LightBlock)
    requires s.Valid(p, trusted, target) && Verify(p, s.verified, s.Current()) == CantBeTrusted
    requires s.depth + 1 == |s.cache|
    requires Height(s.verified) < Height(s.Current()) && Height(block) == Pivot(Height(s.verified), Height(s.Current()))
    ensures s.Fetched(block).Deeper().Valid(p, trusted, target)
    ensures Height(s.verified) < Height(block) < Height(s.Current()) <= Height(target)
    ensures s.Fetched(block).Deeper().Current() == block
  {
    PivotIsInside(p, s.verified, s.Current());
    hide Verify, ValidTrace;
    var cache := s.cache + [block] + [block];
    assert forall i, j :: 0 <= i < j < |cache| && j < |s.cache| ==> cache[i] == s.cache[i] && cache[j] == s.cache[j];
  }

  datatype SkipResult =
    | Verified(trace: seq<LightBlock>)
    | Refused(from: LightBlock, to: LightBlock, outcome: Outcome) // ErrVerificationFailed with the verifier's error
    | Unavailable(from: LightBlock, outcome: Outcome)                  // the pivot could not be had

  /** What any result promises, whatever the source answers. */
  predicate ResultOk(p: Params, trusted: LightBlock, target: LightBlock, r: SkipResult, soFar: seq<LightBlock>) {
    match r
    case Verified(trace) => ValidTrace(p, trusted, target, trace)
    case Refused(from, to, outcome) =>
      ValidTrace(p, trusted, from, soFar) && Verify(p, from, to) == outcome
      && outcome != Trusted && outcome != CantBeTrusted
    case Unavailable(from, _) => ValidTrace(p, trusted, from, soFar)
  }

  /**
   * The source serves one chain of blocks, and none of them is refused against an earlier one for more than lack of
   * trust.
   */
  ghost predicate ServesChain(p: Params, net: Net, source: Provider, blocks: nat -> LightBlock, lo: nat, hi: nat) {
    && (forall t, h :: net.ask(source, t, h) == Found(blocks(h)))
    && (forall h :: Height(blocks(h)) == h)
    && (forall a: nat, b: nat :: lo <= a < b <= hi ==> NotRefused(p, blocks(a), blocks(b)))
  }

  ghost predicate OnChain(b: LightBlock, blocks: nat -> LightBlock) {
    b == blocks(Height(b))
  }

  /** The whole search runs on that chain. */
  ghost predicate Served(
    p: Params, net: Net, source: Provider, blocks: nat -> LightBlock, trusted: LightBlock, target: LightBlock)
  {
    && Height(trusted) < Height(target) && OnChain(trusted, blocks) && OnChain(target, blocks)
    && ServesChain(p, net, source, blocks, Height(trusted), Height(target))
  }

  /** Blocks of the chain between the verified one and the target. */
  ghost predicate Between(cache: seq<LightBlock>, blocks: nat -> LightBlock, verified: LightBlock, target: LightBlock) {
    forall k :: 0 <= k < |cache| ==> OnChain(cache[k], blocks) && Height(verified) < Height(cache[k]) <= Height(target)
  }

  lemma ServedIsNotRefused(
    p: Params, net: Net, source: Provider, blocks: nat -> LightBlock, trusted: LightBlock, target: LightBlock,
                           a: LightBlock, b: LightBlock)
    requires Served(p, net, source, blocks, trusted, target) && OnChain(a, blocks) && OnChain(b, blocks)
    requires Height(trusted) <= Height(a) < Height(b) <= Height(target)
    ensures NotRefused(p, a, b)
  {
  }

  lemma ServedAnswer(
    p: Params, net: Net, source: Provider, blocks: nat -> LightBlock, trusted: LightBlock, target: LightBlock,
    t: nat, h: nat)
    requires Served(p, net, source, blocks, trusted, target)
    ensures net.ask(source, t, h) == Found(blocks(h)) && Height(blocks(h)) == h && OnChain(blocks(h), blocks)
  {
  }

  predicate NotRefused(p: Params, a: LightBlock, b: LightBlock) {
    Verify(p, a, b) == Trusted || Verify(p, a, b) == CantBeTrusted
  }

  /** The source serves one chain, and each of its blocks follows from the one before. */
  ghost predicate ServedInTurn(
    p: Params, net: Net, source: Provider, blocks: nat -> LightBlock, trusted: LightBlock, target: LightBlock)
  {
    && Height(trusted) < Height(target) && OnChain(trusted, blocks) && OnChain(target, blocks)
    && (forall t, h :: net.ask(source, t, h) == Found(blocks(h)))
    && (forall h: nat :: Height(trusted) <= h < Height(target) ==>
          VerifyAdjacent(p, blocks(h).header, blocks(h + 1)) == Trusted)
  }

  lemma TurnStart(
    p: Params, net: Net, source: Provider, blocks: nat -> LightBlock, trusted: LightBlock, target: LightBlock)
    requires ServedInTurn(p, net, source, blocks, trusted, target)
    ensures Height(trusted) < Height(target) && trusted == blocks(Height(trusted)) && target == blocks(Height(target))
  {
  }

  lemma TurnStep(
    p: Params, net: Net, source: Provider, blocks: nat -> LightBlock, trusted: LightBlock, target: LightBlock,
    height: nat, t: nat)
    requires ServedInTurn(p, net, source, blocks, trusted, target) && Height(trusted) < height <= Height(target)
    ensures net.ask(source, t, height) == Found(blocks(height))
    ensures VerifyAdjacent(p, blocks(height - 1).header, blocks(height)) == Trusted
  {
    assert VerifyAdjacent(p, blocks(height - 1).header, blocks(height - 1 + 1)) == Trusted;
  }

  // ----- removal of witnesses ------------------------------------------------------------------

  predicate Increasing(s: seq<nat>) {
    forall i, j :: 0 <= i < j < |s| ==> s[i] < s[j]
  }

  /** sort.Ints, on distinct indexes below `n`. */
  function Sort(indexes: seq<nat>, n: nat): (r: seq<nat>)
    ensures Increasing(r) && forall i :: i in r <==> i in indexes && i < n
  {
    if n == 0 then []
    else if n - 1 in indexes then
      var r := Sort(indexes, n - 1);
      assert forall k :: 0 <= k < |r| ==> r[k] in r;
      r + [n - 1]
    else Sort(indexes, n - 1)
  }

  /** The first `n` witnesses, except those at the given positions. */
  function Without(ws: seq<Provider>, drop: set<nat>, n: nat): multiset<Provider>
    requires n <= |ws|
  {
    if n == 0 then multiset{}
    else if n - 1 in drop then Without(ws, drop, n - 1)
    else Without(ws, drop, n - 1) + multiset{ws[n - 1]}
  }

  lemma {:induction false} WithoutSame(ws: seq<Provider>, drop: set<nat>, i: nat, n: nat)
    requires n <= |ws| && n <= i
    ensures Without(ws, drop, n) == Without(ws, drop + {i}, n)
  {
    if n > 0 {
      WithoutSame(ws, drop, i, n - 1);
    }
  }

  lemma {:induction false} WithoutOneMore(ws: seq<Provider>, drop: set<nat>, i: nat, n: nat)
    requires n <= |ws| && i !in drop && i < n
    ensures Without(ws, drop, n) == Without(ws, drop + {i}, n) + multiset{ws[i]}
  {
    if i == n - 1 {
      WithoutSame(ws, drop, i, n - 1);
    } else {
      WithoutOneMore(ws, drop, i, n - 1);
    }
  }

  lemma {:induction false} WithoutNone(ws: seq<Provider>, n: nat)
    requires n <= |ws|
    ensures Without(ws, {}, n) == multiset(ws[..n])
  {
    if n > 0 {
      WithoutNone(ws, n - 1);
      assert ws[..n] == ws[..n - 1] + [ws[n - 1]];
    }
  }

  function SwapRemove(ws: seq<Provider>, i: nat): (r: seq<Provider>)
    requires i < |ws|
    ensures |r| == |ws| - 1 && forall k :: 0 <= k < i && k < |r| ==> r[k] == ws[k]
  {
    ws[i := ws[|ws| - 1]][..|ws| - 1]
  }

  lemma SwapRemoveTakesOne(ws: seq<Provider>, i: nat)
    requires i < |ws|
    ensures multiset(SwapRemove(ws, i)) + multiset{ws[i]} == multiset(ws)
  {
    var n := |ws| - 1;
    assert ws == ws[..n] + [ws[n]];
    if i < n {
      assert ws[i := ws[n]][..n] == ws[..n][i := ws[n]];
    } else {
      assert ws[i := ws[n]][..n] == ws[..n];
    }
  }

  lemma {:induction false} WithoutAtMostAll(ws: seq<Provider>, drop: set<nat>, n: nat)
    requires n <= |ws|
    ensures Without(ws, drop, n) <= multiset(ws[..n])
  {
    if n > 0 {
      WithoutAtMostAll(ws, drop, n - 1);
      assert ws[..n] == ws[..n - 1] + [ws[n - 1]];
    }
  }

  /** A dropped position is really gone, and a position not dropped is still there. */
  lemma WithoutSplits(ws: seq<Provider>, drop: set<nat>, i: nat)
    requires i < |ws|
    ensures i in drop ==> Without(ws, drop, |ws|) + multiset{ws[i]} <= multiset(ws)
    ensures i !in drop ==> ws[i] in Without(ws, drop, |ws|)
  {
    assert ws[..|ws|] == ws;
    if i in drop {
      WithoutOneMore(ws, drop - {i}, i, |ws|);
      assert drop - {i} + {i} == drop;
      WithoutAtMostAll(ws, drop - {i}, |ws|);
    } else {
      WithoutOneMore(ws, drop, i, |ws|);
    }
  }

  lemma {:induction false} IncreasingBound(s: seq<nat>, n: nat, i: nat)
    requires Increasing(s) && i < |s| && forall x <- s :: x < n
    ensures s[i] + (|s| - i) <= n
    decreases |s| - i
  {
    assert s[i] in s;
    if i + 1 < |s| {
      IncreasingBound(s, n, i + 1);
    }
  }

  lemma RemoveStep(before: seq<Provider>, ws: seq<Provider>, gone: set<nat>, i: nat)
    requires multiset(ws) == Without(before, gone, |before|)
    requires i !in gone && i < |ws| <= |before| && ws[i] == before[i]
    ensures multiset(SwapRemove(ws, i)) == Without(before, gone + {i}, |before|)
  {
    hide Without, SwapRemove;
    SwapRemoveTakesOne(ws, i);
    WithoutOneMore(before, gone, i, |before|);
    var a, b, x := multiset(SwapRemove(ws, i)), Without(before, gone + {i}, |before|), multiset{ws[i]};
    assert a == (a + x) - x && b == (b + x) - x;
  }

  /** The witnesses at sorted[i..] are gone, and those below sorted[i] are where they were. */
  ghost predicate Removed(before: seq<Provider>, ws: seq<Provider>, sorted: seq<nat>, i: nat) {
    && i <= |sorted| && |ws| == |before| - (|sorted| - i)
    && multiset(ws) == Without(before, Positions(sorted[i..]), |before|)
    && forall k :: 0 <= k < |ws| && (i < |sorted| ==> k < sorted[i]) ==> ws[k] == before[k]
  }

  lemma NothingRemoved(before: seq<Provider>, sorted: seq<nat>)
    ensures Removed(before, before, sorted, |sorted|)
  {
    WithoutNone(before, |before|);
    assert before[..|before|] == before && Positions(sorted[|sorted|..]) == {};
  }

  lemma RemovedOne(before: seq<Provider>, ws: seq<Provider>, sorted: seq<nat>, i: nat)
    requires i < |sorted| && Removed(before, ws, sorted, i + 1) && Increasing(sorted)
    requires forall x <- sorted :: x < |before|
    ensures sorted[i] < |ws| && Removed(before, SwapRemove(ws, sorted[i]), sorted, i)
  {
    hide Without, SwapRemove;
    IncreasingBound(sorted, |before|, i);
    assert sorted[i..] == [sorted[i]] + sorted[i + 1..];
    assert Positions(sorted[i..]) == Positions(sorted[i + 1..]) + {sorted[i]};
    RemoveStep(before, ws, Positions(sorted[i + 1..]), sorted[i]);
  }

  lemma AllRemoved(before: seq<Provider>, ws: seq<Provider>, sorted: seq<nat>)
    requires Removed(before, ws, sorted, 0)
    ensures |ws| == |before| - |sorted| && multiset(ws) == Without(before, Positions(sorted), |before|)
  {
    assert sorted[0..] == sorted;
  }

  ghost predicate DistinctBelow(s: seq<nat>, n: nat) {
    (forall i <- s :: i < n) && (forall i, j :: 0 <= i < j < |s| ==> s[i] != s[j])
  }

  ghost function Positions(s: seq<nat>): set<nat> {
    set i | i in s
  }

  /** The witness heard as number `i` of those asked at time `t`. */
  ghost function Heard(net: Net, ws: seq<Provider>, t: nat, i: nat): Provider
    requires net.Valid() && i < |ws|
  {
    var order := net.order(t, |ws|);
    assert Permutation(order, |ws|) && order[i] in order;
    ws[order[i]]
  }

  /** What the witnesses answer, in the order in which they are heard. */
  ghost function Answers(net: Net, ws: seq<Provider>, t: nat, height: nat): seq<Response>
    requires net.Valid()
  {
    seq(|ws|, i requires 0 <= i < |ws| => net.ask(Heard(net, ws, t, i), t + 1, height))
  }

  ghost function FirstFound(a: seq<Response>): (k: nat)
    ensures k <= |a| && (k < |a| ==> a[k].Found?) && forall i :: 0 <= i < k ==> !a[i].Found?
  {
    if a == [] || a[0].Found? then 0
    else
      var k := FirstFound(a[1..]);
      assert forall i :: 0 < i < k + 1 ==> a[i] == a[1..][i - 1];
      k + 1
  }

  /** How many answers make a witness be dropped. */
  ghost function Dropped(a: seq<Response>): nat {
    if a == [] then 0
    else Dropped(a[..|a| - 1]) + if a[|a| - 1].Found? || a[|a| - 1].Benign? then 0 else 1
  }

  /** All of `s` is among the first `i` of the order. */
  ghost predicate Within(s: seq<nat>, order: seq<nat>, i: nat) {
    i <= |order| && forall x <- s :: x in order[..i]
  }

  lemma NextDistinct(s: seq<nat>, order: seq<nat>, i: nat, n: nat)
    requires Permutation(order, n) && i < n && DistinctBelow(s, n) && Within(s, order, i)
    ensures order[i] < n && order[i] !in s && DistinctBelow(s + [order[i]], n)
    ensures Within(s, order, i + 1) && Within(s + [order[i]], order, i + 1)
  {
    assert order[i] in order;
    assert forall x <- order[..i] :: exists k :: 0 <= k < i && order[k] == x;
    assert order[..i + 1] == order[..i] + [order[i]];
  }

  lemma HearNext(a: seq<Response>, i: nat)
    requires i < |a| && i <= FirstFound(a)
    ensures Dropped(a[..i + 1]) == Dropped(a[..i]) + if a[i].Found? || a[i].Benign? then 0 else 1
    ensures if a[i].Found? then FirstFound(a) == i else i + 1 <= FirstFound(a)
  {
    assert a[..i + 1][..i] == a[..i];
  }

  class Client {
    const params: Params
    const net: Net
    var primary: Provider
    var witnesses: seq<Provider>
    var clock: nat                                    // requests sent so far

    constructor (params: Params, net: Net, primary: Provider, witnesses: seq<Provider>)
      ensures this.params == params && this.net == net && this.primary == primary && this.witnesses == witnesses
      ensures clock == 0
    {
      this.params, this.net, this.primary, this.witnesses, this.clock := params, net, primary, witnesses, 0;
    }

    // ----- providers ---------------------------------------------------------------------------

    /** Swap-with-last removal in descending order removes exactly the indexed witnesses. */
    method RemoveWitnesses(indexes: seq<nat>) returns (ok: bool)
      requires DistinctBelow(indexes, |witnesses|)
      modifies this`witnesses
      ensures ok <==> |indexes| < |old(witnesses)|
      ensures !ok ==> witnesses == old(witnesses)
      ensures ok ==> multiset(witnesses) == Without(old(witnesses), Positions(indexes), |old(witnesses)|)
      ensures ok ==> |witnesses| <= |old(witnesses)| - (if indexes == [] then 0 else 1)
    {
      if |witnesses| <= |indexes| {
        return false;
      }
      var sorted := Sort(indexes, |witnesses|);
      assert indexes != [] ==> indexes[0] in sorted;
      assert Positions(sorted) == Positions(indexes);
      ghost var before := witnesses;
      NothingRemoved(before, sorted);
      hide Removed, Increasing, Sort, SwapRemove, DistinctBelow, Positions;
      for i := |sorted| downto 0
        invariant Removed(before, witnesses, sorted, i)
      {
        RemovedOne(before, witnesses, sorted, i);
        witnesses := SwapRemove(witnesses, sorted[i]);
      }
      AllRemoved(before, witnesses, sorted);
      return true;
    }

    /**
     * Promotes the first witness that answers with a block; witnesses that misbehave are dropped. It fails although one
     * answers exactly when the old primary is to go and none but those dropped would be left as witnesses; the primary
     * has been replaced all the same.
     */
    method FindNewPrimary(height: nat, remove: bool) returns (r: Option<LightBlock>)
      requires net.Valid()
      modifies this
      ensures var a := Answers(net, old(witnesses), old(clock), height); var k := FirstFound(a);
              && (r.Some? <==> k < |a| && (remove ==> Dropped(a[..k]) + 1 < |a|))
              && (k < |a| ==> primary == Heard(net, old(witnesses), old(clock), k))
              && (k < |a| && r.None? ==> witnesses == old(witnesses))
              && (r.Some? ==> r.value == a[k].block)
      ensures |witnesses| <= |old(witnesses)|
      ensures r.Some? ==> Height(r.value) == height && primary in old(witnesses)
      ensures r.Some? && remove ==> |witnesses| < |old(witnesses)|
      ensures r.Some? ==> multiset(witnesses) + multiset{primary} <=
                          multiset(old(witnesses)) + (if remove then multiset{} else multiset{old(primary)})
      ensures r.Some? && !remove ==> old(primary) in witnesses
      ensures r.None? ==> multiset(witnesses) <= multiset(old(witnesses))
      ensures r.None? ==> primary == old(primary) || (remove && witnesses == old(witnesses) && primary in witnesses)
    {
      if |witnesses| == 0 {
        return None;
      }
      var order := net.order(clock, |witnesses|);
      var toRemove: seq<nat> := [];
      clock := clock + 1;
      assert Permutation(order, |witnesses|) && DistinctBelow([], |witnesses|) && Within([], order, 0);
      ghost var answers := Answers(net, witnesses, old(clock), height);
      hide Without, FirstFound, Dropped, Positions, DistinctBelow, Within;
      for i := 0 to |order|
        invariant |toRemove| == Dropped(answers[..i]) && i <= FirstFound(answers)
        invariant primary == old(primary) && witnesses == old(witnesses) && clock == old(clock) + 1
        invariant DistinctBelow(toRemove, |witnesses|) && Within(toRemove, order, i)
      {
        var index := order[i];
        NextDistinct(toRemove, order, i, |witnesses|);
        assert answers[i] == net.ask(witnesses[index], clock, height);
        HearNext(answers, i);
        match net.ask(witnesses[index], clock, height)
        case Found(block) =>
          assert net.ask(witnesses[index], clock, height).Found?;
          var promoted := Promote(index, toRemove, remove);
          return if promoted then Some(block) else None;
        case Benign =>
        case _ => toRemove := toRemove + [index];
      }
      ghost var before := witnesses;
      assert before[..|before|] == before;
      WithoutAtMostAll(before, Positions(toRemove), |before|);
      var _ := RemoveWitnesses(toRemove);
      return None;
    }

    method Promote(index: nat, bad: seq<nat>, remove: bool) returns (ok: bool)
      requires DistinctBelow(bad, |witnesses|) && index < |witnesses| && index !in bad
      modifies this`primary, this`witnesses
      ensures primary == old(witnesses)[index]
      ensures ok <==> |bad| + 1 < |old(witnesses)| + (if remove then 0 else 1)
      ensures !ok ==> remove && witnesses == old(witnesses)
      ensures ok ==> |witnesses| <= |old(witnesses)| - (if remove then 1 else 0)
      ensures ok && !remove ==> old(primary) in witnesses
      ensures ok ==> multiset(witnesses) + multiset{primary} <=
                     multiset(old(witnesses)) + (if remove then multiset{} else multiset{old(primary)})
    {
      BoundedLength(bad + [index], |witnesses|);
      ghost var n := |witnesses|;
      if !remove {
        witnesses := witnesses + [primary];
      }
      ghost var before := witnesses;
      primary := witnesses[index];
      ok := RemoveWitnesses(bad + [index]);
      WithoutSplits(before, Positions(bad + [index]), index);
      if !remove {
        WithoutSplits(before, Positions(bad + [index]), n);
      }
    }

    /** A block of the requested height from the primary, or from the witness that replaces it. */
    method LightBlockFromPrimary(height: nat) returns (r: Option<LightBlock>)
      requires net.Valid()
      modifies this
      ensures |witnesses| <= |old(witnesses)|
      ensures r.Some? ==> Height(r.value) == height
      ensures match net.ask(old(primary), old(clock), height)
              case Found(b) => r == Some(b) && primary == old(primary) && witnesses == old(witnesses)
              case Canceled => r.None? && primary == old(primary) && witnesses == old(witnesses)
              case answer =>
                var a := Answers(net, old(witnesses), old(clock) + 1, height);
                var k := FirstFound(a);
                && (r.Some? <==> k < |a| && (answer.Malevolent? ==> Dropped(a[..k]) + 1 < |a|))
                && (r.Some? ==> r.value == a[k].block)
    {
      var response := net.ask(primary, clock, height);
      assert response.Found? ==> net.ask(primary, clock, height).Found?;
      clock := clock + 1;
      match response
      case Found(block) => return Some(block);
      case Canceled => return None;
      case Benign => r := FindNewPrimary(height, false);
      case Malevolent => r := FindNewPrimary(height, true);
    }

    // ----- verification ------------------------------------------------------------------------

    /** Checks every height in turn. The result is the trace, or the height at which it was given up. */
    method VerifySequential(trusted: LightBlock, target: LightBlock, ghost blocks: nat -> LightBlock)
      returns (ok: bool, trace: seq<LightBlock>)
      requires net.Valid()
      modifies this
      ensures |witnesses| <= |old(witnesses)|
      ensures |trace| >= 1 && ValidTrace(params, trusted, trace[|trace| - 1], trace)
      ensures forall i :: 0 <= i < |trace| ==> Height(trace[i]) == Height(trusted) + i
      ensures ok ==> Height(trusted) < Height(target) && trace[|trace| - 1] == target
      ensures Height(target) <= Height(trusted) ==> !ok && trace == [trusted]
      ensures ServedInTurn(params, net, old(primary), blocks, trusted, target) ==>
                ok && |trace| == Height(target) - Height(trusted) + 1 && primary == old(primary)
    {
      StartOfTrace(params, trusted);
      hide ServedInTurn, Verify, VerifyAdjacent, ValidTrace, FirstFound, Dropped, Answers, Heard;
      ghost var good := ServedInTurn(params, net, primary, blocks, trusted, target);
      if good {
        TurnStart(params, net, primary, blocks, trusted, target);
      }
      var verified := trusted;
      trace := [trusted];
      var height := Height(trusted) + 1;
      while height <= Height(target)
        invariant |witnesses| <= |old(witnesses)|
        invariant Height(trusted) < height && (height <= Height(target) + 1 || height == Height(trusted) + 1)
        invariant |trace| == height - Height(trusted) && ValidTrace(params, trusted, verified, trace)
        invariant forall i :: 0 <= i < |trace| ==> Height(trace[i]) == Height(trusted) + i
        invariant Height(trusted) + 1 < height == Height(target) + 1 ==> verified == target
        invariant good ==> primary == old(primary) && verified == blocks(height - 1)
        decreases |witnesses|, Height(target) + 1 - height
      {
        TraceEnds(params, trusted, verified, trace);
        if good {
          TurnStep(params, net, primary, blocks, trusted, target, height, clock);
        }
        var interim;
        if height == Height(target) {
          interim := target;
        } else {
          var fetched := LightBlockFromPrimary(height);
          if fetched.None? {
            return false, trace;
          }
          interim := fetched.value;
        }
        var outcome := VerifyAdjacent(params, verified.header, interim);
        if outcome == Trusted {
          AdjacentStep(params, verified, interim);
          TraceExtends(params, trusted, verified, interim, trace);
          trace := trace + [interim];
          verified := interim;
          height := height + 1;
        } else if outcome == InvalidHeader && height != Height(target) {
          var replacement := FindNewPrimary(Height(target), true);
          if replacement.None? || params.headerHash(replacement.value.header) != params.headerHash(target.header) {
            return false, trace;
          }
        } else {
          return false, trace;
        }
      }
      TraceEnds(params, trusted, verified, trace);
      return |trace| >= 2, trace;                      // the divergence check refuses a single block
    }

    /** Bisection with a cache of the blocks fetched from `source`. */
    method VerifySkipping(source: Provider, trusted: LightBlock, target: LightBlock, ghost blocks: nat -> LightBlock)
      returns (r: SkipResult, soFar: seq<LightBlock>, requests: seq<Request>)
      requires net.Valid()
      modifies this`clock
      ensures ResultOk(params, trusted, target, r, soFar)
      ensures forall q <- requests :: Inside(q)
      ensures Served(params, net, source, blocks, trusted, target) ==> r.Verified?
    {
      hide Verify, ValidTrace, Served, OnChain, Search.Valid;
      ghost var good := Served(params, net, source, blocks, trusted, target);
      if good {
        ServedFrom(params, net, source, blocks, trusted, target);
      }
      var cache, depth := [target], 0;
      var verified := trusted;
      soFar, requests := [trusted], [];
      StartOfSearch(params, trusted, target);
      while true
        invariant depth < |cache| && Search(verified, cache, depth, soFar).Valid(params, trusted, target)
        invariant forall q <- requests :: Inside(q)
        invariant good ==>
                    OnChain(verified, blocks) && Height(trusted) <= Height(verified)
                    && Between(cache, blocks, verified, target)
        decreases Height(target) - Height(verified), Height(cache[depth]) - Height(verified), |cache| - depth
      {
        ghost var s := Search(verified, cache, depth, soFar);
        FirstIsTarget(params, s, trusted, target);
        if good {
          ServedIsNotRefused(params, net, source, blocks, trusted, target, verified, cache[depth]);
        }
        var outcome := Verify(params, verified, cache[depth]);
        match outcome
        case Trusted =>
          AcceptKeeps(params, s, trusted, target);
          if depth == 0 {
            return Verified(soFar + [target]), soFar, requests;
          }
          if good {
            CutBetween(params, s, blocks, trusted, target);
          }
          verified := cache[depth];
          cache := cache[..depth];
          depth := 0;
          soFar := soFar + [verified];
        case CantBeTrusted =>
          PivotIsInside(params, verified, cache[depth]);
          if depth == |cache| - 1 {
            var pivot := Pivot(Height(verified), Height(cache[depth]));
            requests := requests + [Request(Height(verified), pivot, Height(cache[depth]))];
            var response := net.ask(source, clock, pivot);
            assert response.Found? ==> net.ask(source, clock, pivot).Found?;
            if good {
              ServedAnswer(params, net, source, blocks, trusted, target, clock, pivot);
            }
            clock := clock + 1;
            match response {
              case Found(block) =>
                FetchedKeeps(params, s, trusted, target, block);
                cache := cache + [block];
                cache := cache + [block];
              case Benign =>
                return Unavailable(verified, CantBeTrusted), soFar, requests;
              case _ =>
                return Unavailable(verified, Failed), soFar, requests;
            }
          } else {
            DeeperKeeps(params, s, trusted, target);
          }
          depth := depth + 1;
        case _ =>
          return Refused(verified, cache[depth], outcome), soFar, requests;
      }
    }

    /** Replaces a primary that served an invalid intermediate header, as long as the target stays the same. */
    method VerifySkippingAgainstPrimary(trusted: LightBlock, target: LightBlock, ghost blocks: nat -> LightBlock)
      returns (ok: bool, trace: seq<LightBlock>)
      requires net.Valid()
      modifies this
      ensures |witnesses| <= |old(witnesses)|
      ensures ok ==> |trace| >= 2 && ValidTrace(params, trusted, trace[|trace| - 1], trace)
      ensures ok ==> params.headerHash(trace[|trace| - 1].header) == params.headerHash(target.header)
      ensures Served(params, net, old(primary), blocks, trusted, target) ==> ok && trace[|trace| - 1] == target
      decreases |witnesses|
    {
      hide Served;
      var r, _, _ := VerifySkipping(primary, trusted, target, blocks);
      if Served(params, net, primary, blocks, trusted, target) {
        ServedFrom(params, net, primary, blocks, trusted, target);
      }
      match r
      case Verified(t) =>
        return |t| >= 2, t;                            // as above
      case Refused(from, to, InvalidHeader) =>
        if Height(to) == Height(target) {
          return false, [];
        }
        var replacement := FindNewPrimary(Height(target), true);
        if replacement.None? || params.headerHash(replacement.value.header) != params.headerHash(target.header) {
          return false, [];
        }
        ok, trace := VerifySkippingAgainstPrimary(trusted, replacement.value, blocks);
      case _ =>
        return false, [];
    }
  }

  lemma FirstIsTarget(p: Params, s: Search, trusted: LightBlock, target: LightBlock)
    requires s.Valid(p, trusted, target)
    ensures s.cache[0] == target && ValidTrace(p, trusted, s.verified, s.trace)
  {
  }

  lemma CutBetween(p: Params, s: Search, blocks: nat -> LightBlock, trusted: LightBlock, target: LightBlock)
    requires s.Valid(p, trusted, target) && Verify(p, s.verified, s.Current()) == Trusted
    requires Between(s.cache, blocks, s.verified, target)
    ensures Between(s.cache[..s.depth], blocks, s.Current(), target) && OnChain(s.Current(), blocks)
  {
    hide Verify, ValidTrace, OnChain;
  }

  lemma ServedFrom(
    p: Params, net: Net, source: Provider, blocks: nat -> LightBlock, trusted: LightBlock, target: LightBlock)
    requires Served(p, net, source, blocks, trusted, target)
    ensures Height(trusted) < Height(target) && OnChain(trusted, blocks) && OnChain(target, blocks)
  {
  }

  lemma StartOfTrace(p: Params, b: LightBlock)
    ensures ValidTrace(p, b, b, [b])
  {
  }

  lemma TraceEnds(p: Params, from: LightBlock, to: LightBlock, trace: seq<LightBlock>)
    requires ValidTrace(p, from, to, trace)
    ensures |trace| >= 1 && trace[0] == from && trace[|trace| - 1] == to
  {
  }

  lemma StartOfSearch(p: Params, trusted: LightBlock, target: LightBlock)
    ensures Search(trusted, [target], 0, [trusted]).Valid(p, trusted, target)
  {
  }

  lemma TrustedIsStep(p: Params, a: LightBlock, b: LightBlock)
    requires Verify(p, a, b) == Trusted
    ensures Step(p, a, b)
  {
  }

  lemma AdjacentStep(p: Params, a: LightBlock, b: LightBlock)
    requires VerifyAdjacent(p, a.header, b) == Trusted
    ensures Step(p, a, b)
  {
  }

  lemma {:induction false} BoundedLength(s: seq<nat>, n: nat)
    requires DistinctBelow(s, n)
    ensures |s| <= n
  {
    var r := Sort(s, n);
    assert forall i :: 0 <= i < |s| ==> s[i] in r;
    SameLength(s, r);
    if r != [] {
      IncreasingBound(r, n, 0);
    }
  }

  lemma {:induction false} SameLength(s: seq<nat>, r: seq<nat>)
    requires (forall i, j :: 0 <= i < j < |s| ==> s[i] != s[j]) && forall i <- s :: i in r
    ensures |s| <= |r|
    decreases |s|
  {
    if s != [] {
      var x := s[0];
      assert x in s;
      var k :| 0 <= k < |r| && r[k] == x;
      forall i <- s[1..]
        ensures i in r[..k] + r[k + 1..]
      {
        assert i in s;
        var j :| 0 <= j < |r| && r[j] == i;
        assert j != k;
      }
      SameLength(s[1..], r[..k] + r[k + 1..]);
    }
  }

  /** A replacement that fails although the only witness answers: it is then both the primary and the witness. */
  method OnlyWitnessPromoted(params: Params, net: Net, primary: Provider, w: Provider, height: nat)
    returns (c: Client, r: Option<LightBlock>)
    requires net.Valid() && net.ask(w, 1, height).Found?
    ensures r.None? && c.primary == w && c.witnesses == [w]
  {
    c := new Client(params, net, primary, [w]);
    ghost var a := Answers(net, [w], 0, height);
    assert Permutation(net.order(0, 1), 1) && net.order(0, 1)[0] in net.order(0, 1);
    assert a[0].Found? && FirstFound(a) == 0 && a[..0] == [];
    r := c.FindNewPrimary(height, true);
  }
}
