/**
 * Crashes while a block is finalised or replayed, and the handshake that brings application, state and block store back
 * to one height (consensus/replay.go, consensus/state.go, state/execution.go).
 */
module CrashRecovery {
  import opened Options

  /** An application hash; NO_HASH is the empty one. */
  type Hash = nat
  const NO_HASH: Hash := 0

  /**
   * A chain from `initial` on with a deterministic application: the hash after a list of committed heights, the hash in
   * the genesis document, and the hash each block header carries.
   */
  datatype Config = Config(initial: nat, hash: seq<nat> -> Hash, genesisHash: Hash, header: nat -> Hash) {
    function Next(h: nat): nat {
      if h == 0 then initial else h + 1
    }

    /** Heights initial..h in order; none for h == 0. */
    function Upto(h: nat): (r: seq<nat>) {
      if h < initial || h == 0 then [] else Upto(h - 1) + [h]
    }

    /** The hash of the state at height `h`: at genesis the document's, unless the application returned one. */
    function StateHash(h: nat): Hash {
      if h == 0 && hash([]) == NO_HASH then genesisHash else hash(Upto(h))
    }

    /**
     * Blocks carry the hash of the state before them; an application without a genesis hash has none in the document.
     */
    ghost predicate Valid() {
      && 1 <= initial
      && (forall h: nat :: initial <= h ==> header(h) == StateHash(if h == initial then 0 else h - 1))
      && (hash([]) == NO_HASH ==> genesisHash == NO_HASH)
    }
  }

  /** Everything that survives a crash. */
  datatype Disk = Disk(
    base: nat, store: nat,                            // block store
    state: nat, stateHash: Hash,                      // state store
    response: Option<(nat, Hash)>,                    // last FinalizeBlock response
    app: seq<nat>,                                    // heights the application committed, in order
    marks: set<nat>)                                  // heights with an EndHeight record in the WAL
  {
    function AppHeight(): nat {
      if app == [] then 0 else app[|app| - 1]
    }
  }

  /** Durable effects, one at a time. */
  datatype Action =
    | SaveGenesis(hash: Hash) | SaveBlock(height: nat) | EndHeight(height: nat)
    | SaveResponse(height: nat, hash: Hash) | Commit(height: nat) | SaveState(height: nat, hash: Hash)

  function Do(d: Disk, a: Action): Disk {
    match a
    case SaveGenesis(hash) => d.(stateHash := hash)
    case SaveBlock(h) => d.(store := h, base := if d.store == 0 then h else d.base)
    case EndHeight(h) => d.(marks := d.marks + {h})
    case SaveResponse(h, hash) => d.(response := Some((h, hash)))
    case Commit(h) => d.(app := d.app + [h])
    case SaveState(h, hash) => d.(state := h, stateHash := hash)
  }

  function DoAll(d: Disk, actions: seq<Action>): Disk
    decreases |actions|
  {
    if actions == [] then d else DoAll(Do(d, actions[0]), actions[1..])
  }

  /** applyBlock: the response is saved before the application commits, the state after it. */
  function ApplyActions(h: nat, hash: Hash, live: bool): seq<Action> {
    [SaveResponse(h, hash)] + ((if live then [Commit(h)] else []) + [SaveState(h, hash)])
  }

  /** finalizeCommit of the block at `h`. */
  function FinalizeActions(cfg: Config, d: Disk, h: nat): seq<Action> {
    (if d.store < h then [SaveBlock(h)] else []) + [EndHeight(h)] + ApplyActions(h, cfg.hash(d.app + [h]), true)
  }

  // ----- the handshake -------------------------------------------------------------------------

  datatype Result =
    | Synced | AppTooLow | AppTooHigh | NoResponse | InvalidBlock
    | HashMismatch | StateAhead | StoreAhead | Uncovered           // panics

  predicate IsPanic(r: Result) {
    r == HashMismatch || r == StateAhead || r == StoreAhead || r == Uncovered
  }

  /** What a handshake does to the disk, and how it ends. */
  datatype Plan = Plan(actions: seq<Action>, result: Result) {
    function After(first: seq<Action>): Plan {
      Plan(first + actions, result)
    }
  }

  /** replayBlock: validates against the state, then applies with the application or with the saved response. */
  function ReplayBlock(cfg: Config, state: nat, stateHash: Hash, h: nat, hash: Hash, live: bool): Plan {
    if h != cfg.Next(state) || cfg.header(h) != stateHash then Plan([], InvalidBlock)
    else Plan(ApplyActions(h, hash, live), Synced)
  }

  /** replayBlocks from block `i`: `last` is the hash after the previous block of this loop. */
  function ReplayBlocks(
    cfg: Config, store: nat, state: nat, stateHash: Hash, app: seq<nat>, i: nat, last: Option<Hash>,
    mutate: bool): Plan
    decreases store + 1 - i
  {
    if i <= (if mutate then store - 1 else store) then
      if last.Some? && last.value != NO_HASH && last.value != cfg.header(i) then Plan([], HashMismatch)
      else ReplayBlocks(cfg, store, state, stateHash, app + [i], i + 1, Some(cfg.hash(app + [i])), mutate)
           .After([Commit(i)])
    else if mutate then ReplayBlock(cfg, state, stateHash, store, cfg.hash(app + [store]), true)
    else if last != Some(stateHash) then Plan([], HashMismatch)
    else Plan([], Synced)
  }

  function Handshake(cfg: Config, d: Disk): Plan {
    var app := d.AppHeight();
    if app == 0 && d.state == 0 then
      var hash := if cfg.hash(d.app) != NO_HASH then cfg.hash(d.app) else cfg.genesisHash;
      Sync(cfg, d, hash).After([SaveGenesis(hash)])
    else Sync(cfg, d, d.stateHash)
  }

  function Sync(cfg: Config, d: Disk, stateHash: Hash): Plan {
    var app, hash := d.AppHeight(), cfg.hash(d.app);
    if d.store == 0 then if hash == stateHash then Plan([], Synced) else Plan([], HashMismatch)
    else if app == 0 && cfg.initial < d.base then Plan([], AppTooLow)
    else if app > 0 && app < d.base - 1 then Plan([], AppTooLow)
    else if d.store < app then Plan([], AppTooHigh)
    else if d.store < d.state then Plan([], StateAhead)
    else if d.store > d.state + 1 then Plan([], StoreAhead)
    else if d.store == d.state then
      if app < d.store then ReplayBlocks(cfg, d.store, d.state, stateHash, d.app, First(cfg, app), None, false)
      else if app == d.store then if hash == stateHash then Plan([], Synced) else Plan([], HashMismatch)
      else Plan([], Uncovered)
    else if app < d.state then ReplayBlocks(cfg, d.store, d.state, stateHash, d.app, First(cfg, app), None, true)
    else if app == d.state then ReplayBlock(cfg, d.state, stateHash, d.store, cfg.hash(d.app + [d.store]), true)
    else if app == d.store then
      if d.response.None? || d.response.value.0 != d.store then Plan([], NoResponse)
      else ReplayBlock(cfg, d.state, stateHash, d.store, d.response.value.1, false)
    else Plan([], Uncovered)
  }

  /** The first block to replay. */
  function First(cfg: Config, app: nat): nat {
    if app + 1 == 1 then cfg.initial else app + 1
  }

  // ----- what every crash leaves behind --------------------------------------------------------

  predicate HeightOk(cfg: Config, h: nat) {
    h == 0 || cfg.initial <= h
  }

  /** The invariant of the disk, at every point of every run. */
  ghost predicate DiskOk(cfg: Config, d: Disk) {
    && HeightOk(cfg, d.state) && HeightOk(cfg, d.store)
    && (d.store == d.state || d.store == cfg.Next(d.state))
    && HeightOk(cfg, d.AppHeight()) && d.AppHeight() <= d.store && d.app == cfg.Upto(d.AppHeight())
    && (0 < d.store ==> d.stateHash == cfg.StateHash(d.state))
    && (d.state < d.store && d.AppHeight() == d.store ==> d.response == Some((d.store, cfg.hash(d.app))))
    && (if d.store == 0 then d.base == 0 else cfg.initial <= d.base <= d.store)
    && (forall h <- d.marks :: cfg.initial <= h <= d.store)
  }

  /** All at one height. */
  ghost predicate InSync(cfg: Config, d: Disk) {
    DiskOk(cfg, d) && d.state == d.store && d.stateHash == cfg.StateHash(d.state) && d.app == cfg.Upto(d.store)
  }

  lemma {:induction false} UptoEnds(cfg: Config, h: nat)
    requires HeightOk(cfg, h) && 1 <= cfg.initial
    ensures if h == 0 then cfg.Upto(h) == []
            else |cfg.Upto(h)| == h - cfg.initial + 1 && cfg.Upto(h)[|cfg.Upto(h)| - 1] == h
    ensures h > 0 ==> cfg.Upto(h) == cfg.Upto(if h == cfg.initial then 0 else h - 1) + [h]
    ensures cfg.Upto(cfg.Next(h)) == cfg.Upto(h) + [cfg.Next(h)]
  {
    if h > cfg.initial {
      UptoEnds(cfg, h - 1);
    }
  }

  /** The invariant holds after every single action, so a crash may fall between any two. */
  ghost predicate OkThroughout(cfg: Config, d: Disk, actions: seq<Action>)
    decreases |actions|
  {
    DiskOk(cfg, d) && (actions != [] ==> OkThroughout(cfg, Do(d, actions[0]), actions[1..]))
  }

  lemma NothingToDo(cfg: Config, d: Disk)
    requires DiskOk(cfg, d)
    ensures OkThroughout(cfg, d, []) && DoAll(d, []) == d
  {
  }

  lemma OneMore(cfg: Config, d: Disk, a: Action, rest: seq<Action>)
    requires DiskOk(cfg, d) && OkThroughout(cfg, Do(d, a), rest)
    ensures OkThroughout(cfg, d, [a] + rest) && DoAll(d, [a] + rest) == DoAll(Do(d, a), rest)
  {
    hide DiskOk;
    assert ([a] + rest)[1..] == rest;
  }

  lemma {:induction false} OkAfterPrefix(cfg: Config, d: Disk, actions: seq<Action>, k: nat)
    requires OkThroughout(cfg, d, actions) && k <= |actions|
    ensures DiskOk(cfg, DoAll(d, actions[..k]))
    decreases |actions|
  {
    if k > 0 {
      assert actions[..k][1..] == actions[1..][..k - 1];
      OkAfterPrefix(cfg, Do(d, actions[0]), actions[1..], k - 1);
    }
  }

  lemma ResponseSaved(cfg: Config, d: Disk, live: bool)
    requires cfg.Valid() && DiskOk(cfg, d) && d.store == cfg.Next(d.state)
    requires d.app == cfg.Upto(if live then d.state else d.store)
    ensures var d1 := Do(d, SaveResponse(d.store, cfg.hash(cfg.Upto(d.store))));
            var d2 := if live then Do(d1, Commit(d.store)) else d1;
            DiskOk(cfg, d1) && DiskOk(cfg, d2) && d2.app == cfg.Upto(d.store)
  {
    UptoEnds(cfg, d.state);
    UptoEnds(cfg, d.store);
  }

  lemma BlockApplied(cfg: Config, d: Disk)
    requires cfg.Valid() && DiskOk(cfg, d) && d.store == cfg.Next(d.state) && d.app == cfg.Upto(d.store)
    ensures InSync(cfg, Do(d, SaveState(d.store, cfg.hash(d.app))))
  {
    UptoEnds(cfg, d.store);
  }

  lemma InSyncIsOk(cfg: Config, d: Disk)
    requires InSync(cfg, d)
    ensures DiskOk(cfg, d)
  {
  }

  /** Applying the block after the state, on the application at that state, or with its saved response. */
  lemma ApplyKeeps(cfg: Config, d: Disk, live: bool)
    requires cfg.Valid() && DiskOk(cfg, d) && d.store == cfg.Next(d.state)
    requires d.app == cfg.Upto(if live then d.state else d.store)
    ensures var actions := ApplyActions(d.store, cfg.hash(cfg.Upto(d.store)), live);
            OkThroughout(cfg, d, actions) && InSync(cfg, DoAll(d, actions)) && DoAll(d, actions).store == d.store
  {
    var h, hash := d.store, cfg.hash(cfg.Upto(d.store));
    var d1 := Do(d, SaveResponse(h, hash));
    var d2 := if live then Do(d1, Commit(h)) else d1;
    var d3 := Do(d2, SaveState(h, hash));
    ResponseSaved(cfg, d, live);
    BlockApplied(cfg, d2);
    hide DiskOk, InSync, Do;
    InSyncIsOk(cfg, d3);
    NothingToDo(cfg, d3);
    OneMore(cfg, d2, SaveState(h, hash), []);
    if live {
      OneMore(cfg, d1, Commit(h), [SaveState(h, hash)]);
    }
    OneMore(cfg, d, SaveResponse(h, hash), (if live then [Commit(h)] else []) + [SaveState(h, hash)]);
  }

  /** What an uninterrupted plan achieves. */
  ghost predicate Reaches(cfg: Config, d: Disk, p: Plan) {
    && p.result == Synced && OkThroughout(cfg, d, p.actions)
    && InSync(cfg, DoAll(d, p.actions)) && DoAll(d, p.actions).store == d.store
  }

  lemma ReplayBlockKeeps(cfg: Config, d: Disk, live: bool)
    requires cfg.Valid() && DiskOk(cfg, d) && d.store == cfg.Next(d.state)
    requires d.app == cfg.Upto(if live then d.state else d.store)
    ensures Reaches(cfg, d,
                    ReplayBlock(cfg, d.state, cfg.StateHash(d.state), d.store, cfg.hash(cfg.Upto(d.store)), live))
  {
    ApplyKeeps(cfg, d, live);
    hide DiskOk, OkThroughout, DoAll, ApplyActions;
  }

  /** One replayed block below the last one to be applied. */
  lemma CommitKeeps(cfg: Config, d: Disk)
    requires cfg.Valid() && DiskOk(cfg, d)
    requires var i := cfg.Next(d.AppHeight()); i <= d.store && (d.state < d.store ==> i < d.store)
    ensures var i := cfg.Next(d.AppHeight()); var d' := Do(d, Commit(i)); DiskOk(cfg, d') && d'.AppHeight() == i
    ensures d.app != [] ==> cfg.header(cfg.Next(d.AppHeight())) == cfg.hash(d.app)
  {
    UptoEnds(cfg, d.AppHeight());
    UptoEnds(cfg, cfg.Next(d.AppHeight()));
  }

  lemma AppAtState(cfg: Config, d: Disk, h: nat)
    requires cfg.Valid() && DiskOk(cfg, d) && HeightOk(cfg, h) && cfg.Next(d.AppHeight()) == cfg.Next(h)
    ensures d.app == cfg.Upto(h) && d.AppHeight() == h
  {
  }

  /** Replaying commits the missing blocks one by one, and finds every hash in order. */
  lemma {:induction false} ReplayKeeps(cfg: Config, d: Disk, i: nat, last: Option<Hash>, mutate: bool)
    requires cfg.Valid() && DiskOk(cfg, d) && HeightOk(cfg, d.state)
    requires i == cfg.Next(d.AppHeight()) && i <= d.store + 1 && 0 < d.store
    requires last == Some(cfg.hash(d.app)) || (last.None? && i <= d.store)
    requires last.Some? ==> d.app != []
    requires if mutate then d.store == cfg.Next(d.state) && i <= d.store && 0 < d.state else d.store == d.state
    ensures Reaches(cfg, d, ReplayBlocks(cfg, d.store, d.state, cfg.StateHash(d.state), d.app, i, last, mutate))
    decreases d.store + 1 - i
  {
    hide DoAll, OkThroughout, ReplayBlock, DiskOk, Config.Upto;
    if i <= (if mutate then d.store - 1 else d.store) {
      CommitKeeps(cfg, d);
      var d' := Do(d, Commit(i));
      ReplayKeeps(cfg, d', i + 1, Some(cfg.hash(d'.app)), mutate);
      var rest := ReplayBlocks(cfg, d.store, d.state, cfg.StateHash(d.state),
                               d'.app, i + 1, Some(cfg.hash(d'.app)), mutate);
      OneMore(cfg, d, Commit(i), rest.actions);
    } else {
      AppAtState(cfg, d, d.state);
      if mutate {
        ReplayBlockKeeps(cfg, d, true);
        NextApp(cfg, d.state);
      } else {
        NothingToDo(cfg, d);
        InSyncNow(cfg, d);
      }
    }
  }

  lemma NextApp(cfg: Config, h: nat)
    requires HeightOk(cfg, h) && 1 <= cfg.initial
    ensures cfg.Upto(cfg.Next(h)) == cfg.Upto(h) + [cfg.Next(h)]
  {
    UptoEnds(cfg, h);
  }

  lemma InSyncNow(cfg: Config, d: Disk)
    requires cfg.Valid() && DiskOk(cfg, d) && d.state == d.store && 0 < d.store && d.app == cfg.Upto(d.store)
    ensures InSync(cfg, d) && cfg.StateHash(d.state) == cfg.hash(d.app)
  {
  }

  ghost predicate TooLow(cfg: Config, d: Disk) {
    0 < d.store && if d.AppHeight() == 0 then cfg.initial < d.base else d.AppHeight() < d.base - 1
  }

  /** The first block of a chain that does not start at 1 was saved, but not its state. */
  predicate FirstBlockLost(cfg: Config, d: Disk) {
    1 < cfg.initial && d.state == 0 && 0 < d.store
  }

  /** How a handshake that is not interrupted ends. */
  ghost predicate Recovered(cfg: Config, d: Disk, r: Result, d': Disk) {
    && r == (if TooLow(cfg, d) then AppTooLow else if FirstBlockLost(cfg, d) then StoreAhead else Synced)
    && (r == Synced ==> InSync(cfg, d') && d'.store == d.store)
  }

  /** It may also be interrupted after any of its actions. */
  ghost predicate Recovers(cfg: Config, d: Disk, p: Plan) {
    OkThroughout(cfg, d, p.actions) && Recovered(cfg, d, p.result, DoAll(d, p.actions))
  }

  lemma SyncKeeps(cfg: Config, d: Disk)
    requires cfg.Valid() && DiskOk(cfg, d) && d.stateHash == cfg.StateHash(d.state)
    ensures Recovers(cfg, d, Sync(cfg, d, cfg.StateHash(d.state)))
  {
    var app := d.AppHeight();
    UptoEnds(cfg, app);
    UptoEnds(cfg, d.state);
    NothingToDo(cfg, d);
    hide DoAll, OkThroughout, ReplayBlock, ReplayBlocks;
    if d.store == 0 || TooLow(cfg, d) || FirstBlockLost(cfg, d) {
    } else if d.store == d.state {
      if app < d.store {
        ReplayKeeps(cfg, d, First(cfg, app), None, false);
      }
    } else if app < d.state {
      ReplayKeeps(cfg, d, First(cfg, app), None, true);
    } else {
      ReplayBlockKeeps(cfg, d, app == d.state);
    }
  }

  /**
   * The handshake after any crash. It ends with application, state and store at the store's height, unless the blocks
   * the application misses were pruned; the only panic is for a lost first block of a chain from beyond 1.
   */
  lemma HandshakeRecovers(cfg: Config, d: Disk)
    requires cfg.Valid() && DiskOk(cfg, d)
    ensures Recovers(cfg, d, Handshake(cfg, d))
  {
    if d.AppHeight() == 0 && d.state == 0 {
      var hash := cfg.StateHash(0);
      var d' := Do(d, SaveGenesis(hash));
      assert DiskOk(cfg, d');
      SyncKeeps(cfg, d');
      SameSync(cfg, d, d', hash);
      hide DiskOk, Sync, DoAll, OkThroughout;
      OneMore(cfg, d, SaveGenesis(hash), Sync(cfg, d, hash).actions);
    } else {
      SyncKeeps(cfg, d);
    }
  }

  /** On any disk with blocks, exactly these heights are refused; the last branch is never taken. */
  lemma RefusedHeights(cfg: Config, d: Disk, hash: Hash)
    requires 0 < d.store
    ensures var r, app := Sync(cfg, d, hash).result, d.AppHeight();
            var low := if app == 0 then cfg.initial < d.base else app + 1 < d.base;
            && (r == AppTooLow <==> low)
            && (r == AppTooHigh <==> !low && d.store < app)
            && (r == StateAhead <==> !low && app <= d.store < d.state)
            && (r == StoreAhead <==> !low && app <= d.store && d.state + 1 < d.store)
            && r != Uncovered
  {
    if d.AppHeight() < d.store {
      ReplayResult(cfg, d.store, d.state, hash, d.app, First(cfg, d.AppHeight()), None, d.store != d.state);
    }
  }

  lemma {:induction false} ReplayResult(
    cfg: Config, store: nat, state: nat, stateHash: Hash, app: seq<nat>, i: nat, last: Option<Hash>, mutate: bool)
    ensures var r := ReplayBlocks(cfg, store, state, stateHash, app, i, last, mutate).result;
            r == Synced || r == HashMismatch || r == InvalidBlock
    decreases store + 1 - i
  {
    if i <= (if mutate then store - 1 else store) {
      ReplayResult(cfg, store, state, stateHash, app + [i], i + 1, Some(cfg.hash(app + [i])), mutate);
    }
  }

  /** Synchronising does not look at the saved state hash. */
  lemma SameSync(cfg: Config, d: Disk, d': Disk, hash: Hash)
    requires d' == d.(stateHash := d'.stateHash)
    ensures Sync(cfg, d, hash) == Sync(cfg, d', hash)
  {
  }

  lemma ApplyKeepsMarks(d: Disk, h: nat, hash: Hash, live: bool)
    ensures DoAll(d, ApplyActions(h, hash, live)).marks == d.marks
  {
    var d1 := Do(d, SaveResponse(h, hash));
    var d2 := if live then Do(d1, Commit(h)) else d1;
    ApplyRuns(d, d1, d2, Do(d2, SaveState(h, hash)), h, hash, live);
  }

  /** Finalising the next block keeps the invariant at every step, records the end of its height and ends in sync. */
  lemma FinalizeKeeps(cfg: Config, d: Disk)
    requires cfg.Valid() && InSync(cfg, d)
    ensures var actions := FinalizeActions(cfg, d, cfg.Next(d.store));
            && OkThroughout(cfg, d, actions)
            && InSync(cfg, DoAll(d, actions)) && DoAll(d, actions).store == cfg.Next(d.store)
            && DoAll(d, actions).marks == d.marks + {cfg.Next(d.store)}
  {
    var h := cfg.Next(d.store);
    UptoEnds(cfg, d.store);
    var d1 := Do(d, SaveBlock(h));
    assert d1.AppHeight() <= d.store;
    assert DiskOk(cfg, d1);
    var d2 := Do(d1, EndHeight(h));
    assert DiskOk(cfg, d2);
    ApplyKeeps(cfg, d2, true);
    ApplyKeepsMarks(d2, h, cfg.hash(cfg.Upto(h)), true);
    hide DiskOk, Do;
    var apply := ApplyActions(h, cfg.hash(cfg.Upto(h)), true);
    var actions := FinalizeActions(cfg, d, h);
    assert actions[1..][1..] == apply && actions[1..][0] == EndHeight(h) && actions[0] == SaveBlock(h);
  }

  // ----- runs ----------------------------------------------------------------------------------

  /** The machine: its disk, and whether consensus is running after a complete handshake. */
  datatype System = System(disk: Disk, running: bool)

  /** Each event may be cut short after some of its actions. An application may come back at an older height. */
  datatype Event = Finalize(actions: nat) | Start(actions: nat) | RollBack(height: nat) | Prune(base: nat)

  function Step(cfg: Config, s: System, ev: Event): System {
    match ev
    case Finalize(k) =>
      var actions := FinalizeActions(cfg, s.disk, cfg.Next(s.disk.store));
      if !s.running then s
      else if k < |actions| then System(DoAll(s.disk, actions[..k]), false)
      else System(DoAll(s.disk, actions), true)
    case Start(k) =>
      var p := Handshake(cfg, s.disk);
      if k < |p.actions| then System(DoAll(s.disk, p.actions[..k]), false)
      else System(DoAll(s.disk, p.actions), p.result == Synced)
    case RollBack(h) =>
      if HeightOk(cfg, h) && h <= s.disk.AppHeight() then System(s.disk.(app := cfg.Upto(h)), false) else s
    case Prune(b) =>
      if s.disk.base < b <= s.disk.state then s.(disk := s.disk.(base := b)) else s
  }

  function Run(cfg: Config, events: seq<Event>): System {
    if events == [] then System(Disk(0, 0, 0, cfg.genesisHash, None, [], {}), false)
    else Step(cfg, Run(cfg, events[..|events| - 1]), events[|events| - 1])
  }

  ghost predicate SystemOk(cfg: Config, s: System) {
    DiskOk(cfg, s.disk) && (s.running ==> InSync(cfg, s.disk))
  }

  lemma StepKeeps(cfg: Config, s: System, ev: Event)
    requires cfg.Valid() && SystemOk(cfg, s)
    ensures SystemOk(cfg, Step(cfg, s, ev))
  {
    match ev
    case Finalize(k) =>
      if s.running {
        FinalizeKeeps(cfg, s.disk);
        hide DiskOk, InSync;
        var actions := FinalizeActions(cfg, s.disk, cfg.Next(s.disk.store));
        OkAfterPrefix(cfg, s.disk, actions, if k < |actions| then k else |actions|);
        assert actions[..|actions|] == actions;
      }
    case Start(k) =>
      HandshakeRecovers(cfg, s.disk);
      hide DiskOk, InSync;
      var actions := Handshake(cfg, s.disk).actions;
      OkAfterPrefix(cfg, s.disk, actions, if k < |actions| then k else |actions|);
      assert actions[..|actions|] == actions;
    case RollBack(h) =>
      if HeightOk(cfg, h) {
        UptoEnds(cfg, h);
      }
    case Prune(b) =>
  }

  lemma {:induction false} EveryRunKeeps(cfg: Config, events: seq<Event>)
    requires cfg.Valid()
    ensures SystemOk(cfg, Run(cfg, events))
  {
    if events == [] {
      assert cfg.Upto(0) == [];
    } else {
      EveryRunKeeps(cfg, events[..|events| - 1]);
      StepKeeps(cfg, Run(cfg, events[..|events| - 1]), events[|events| - 1]);
    }
  }

  /** After any run of crashes, an uninterrupted handshake brings everything to the height of the block store. */
  lemma EveryRunRecovers(cfg: Config, events: seq<Event>)
    requires cfg.Valid()
    ensures var d := Run(cfg, events).disk; var p := Handshake(cfg, d); var d' := DoAll(d, p.actions);
            && p.result == (if TooLow(cfg, d) then AppTooLow else if FirstBlockLost(cfg, d) then StoreAhead else Synced)
            && (p.result == Synced ==> d'.store == d'.state == d.store && d'.app == cfg.Upto(d.store))
  {
    EveryRunKeeps(cfg, events);
    HandshakeRecovers(cfg, Run(cfg, events).disk);
  }

  /** A chain that starts at height 1 never panics in a handshake. */
  lemma NoPanicFromHeightOne(cfg: Config, events: seq<Event>)
    requires cfg.Valid() && cfg.initial == 1
    ensures !IsPanic(Handshake(cfg, Run(cfg, events).disk).result)
  {
    EveryRunRecovers(cfg, events);
  }

  /** A chain that starts later does, when it crashes between saving its first block and the state after it. */
  lemma LostFirstBlock(cfg: Config)
    requires cfg.Valid() && 1 < cfg.initial
    ensures Handshake(cfg, Run(cfg, [Start(1), Finalize(1)]).disk).result == StoreAhead
  {
    var d0 := Disk(0, 0, 0, cfg.genesisHash, None, [], {});
    var first, events := [Start(1)], [Start(1), Finalize(1)];
    assert first[..0] == [] && events[..1] == first;
    var genesis := [SaveGenesis(cfg.StateHash(0))];
    assert Handshake(cfg, d0).actions == genesis && genesis[1..] == [];
    var d1 := Do(d0, genesis[0]);
    assert Run(cfg, first) == System(DoAll(d0, genesis), true) && DoAll(d0, genesis) == d1;
    var save := [SaveBlock(cfg.initial)];
    assert FinalizeActions(cfg, d1, cfg.initial)[..1] == save && save[1..] == [];
    assert Run(cfg, events).disk == DoAll(d1, save) && DoAll(d1, save) == Do(d1, save[0]);
  }

  /** An EndHeight record implies that its block is stored, and the height being decided has none. */
  lemma EndHeightMeansStored(cfg: Config, events: seq<Event>, h: nat)
    requires cfg.Valid() && h in Run(cfg, events).disk.marks
    ensures var s := Run(cfg, events); cfg.initial <= h <= s.disk.store && (s.running ==> h < cfg.Next(s.disk.state))
  {
    EveryRunKeeps(cfg, events);
  }

  function Commits(actions: seq<Action>): seq<nat> {
    if actions == [] then []
    else (if actions[0].Commit? then [actions[0].height] else []) + Commits(actions[1..])
  }

  lemma {:induction false} CommitsExtendApp(d: Disk, actions: seq<Action>)
    ensures DoAll(d, actions).app == d.app + Commits(actions)
    decreases |actions|
  {
    if actions != [] {
      CommitsExtendApp(Do(d, actions[0]), actions[1..]);
    }
  }

  /** The handshake commits exactly the blocks the application has not seen, once each and in order. */
  lemma CommitsExactlyOnce(cfg: Config, events: seq<Event>)
    requires cfg.Valid() && Handshake(cfg, Run(cfg, events).disk).result == Synced
    ensures var d := Run(cfg, events).disk; d.app + Commits(Handshake(cfg, d).actions) == cfg.Upto(d.store)
  {
    var d := Run(cfg, events).disk;
    EveryRunRecovers(cfg, events);
    CommitsExtendApp(d, Handshake(cfg, d).actions);
  }

  /**
   * Without the alignment of genesis hashes, the very first handshake panics exactly when only the document has one.
   */
  lemma GenesisHashMismatch(cfg: Config)
    requires 1 <= cfg.initial
    ensures Handshake(cfg, Disk(0, 0, 0, cfg.genesisHash, None, [], {})).result == HashMismatch <==>
            cfg.hash([]) == NO_HASH && cfg.genesisHash != NO_HASH
  {
  }

  // ----- the handshake as the source runs it ---------------------------------------------------

  class Handshaker {
    const cfg: Config
    var disk: Disk
    var nBlocks: nat

    constructor (cfg: Config, disk: Disk)
      ensures this.cfg == cfg && this.disk == disk && nBlocks == 0
    {
      this.cfg, this.disk, this.nBlocks := cfg, disk, 0;
    }

    method ApplyBlock(h: nat, hash: Hash, live: bool)
      modifies this`disk
      ensures disk == DoAll(old(disk), ApplyActions(h, hash, live))
    {
      ghost var d := disk;
      disk := disk.(response := Some((h, hash)));
      ghost var d1 := disk;
      if live {
        disk := disk.(app := disk.app + [h]);
      }
      ghost var d2 := disk;
      disk := disk.(state := h, stateHash := hash);
      ApplyRuns(d, d1, d2, disk, h, hash, live);
    }

    method ReplayOne(stateHash: Hash, h: nat, hash: Hash, live: bool) returns (r: Result)
      modifies this
      ensures var p := ReplayBlock(cfg, old(disk).state, stateHash, h, hash, live);
              r == p.result && disk == DoAll(old(disk), p.actions)
      ensures var d := old(disk);
              (&& cfg.Valid() && DiskOk(cfg, d) && h == d.store == cfg.Next(d.state)
               && stateHash == cfg.StateHash(d.state)
               && d.app == cfg.Upto(if live then d.state else h) && hash == cfg.hash(cfg.Upto(h))) ==>
                r == Synced && InSync(cfg, disk) && disk.store == h
    {
      ghost var d := disk;
      hide DiskOk, InSync, OkThroughout, Config.Upto, Config.Valid;
      if cfg.Valid() && DiskOk(cfg, d) && h == d.store == cfg.Next(d.state)
         && d.app == cfg.Upto(if live then d.state else h) {
        ReplayBlockKeeps(cfg, d, live);
      }
      if h != cfg.Next(disk.state) || cfg.header(h) != stateHash {
        return InvalidBlock;
      }
      ApplyBlock(h, hash, live);
      nBlocks := nBlocks + 1;
      return Synced;
    }

    method Replay(stateHash: Hash, appHeight: nat, mutate: bool) returns (r: Result)
      modifies this
      ensures var p := ReplayBlocks(cfg, old(disk).store, old(disk).state, stateHash,
                                   old(disk).app, First(cfg, appHeight), None, mutate);
              r == p.result && disk == DoAll(old(disk), p.actions)
      ensures (Replayable(cfg, old(disk), mutate) && stateHash == cfg.StateHash(old(disk).state)
               && appHeight == old(disk).AppHeight()) ==>
                r == Synced && InSync(cfg, disk) && disk.store == old(disk).store
    {
      ReplayAll(cfg, disk, mutate);
      hide DiskOk, InSync, OkThroughout, Replayable;
      ghost var plan := ReplayBlocks(cfg, disk.store, disk.state, stateHash, disk.app,
                                     First(cfg, appHeight), None, mutate);
      ghost var done := DoAll(disk, plan.actions);
      var store := disk.store;
      var finalBlock: int := if mutate then store as int - 1 else store;
      var appHash: Option<Hash> := None;
      var i := First(cfg, appHeight);
      while i <= finalBlock
        invariant disk.store == store && disk.state == old(disk).state
        invariant var p := ReplayBlocks(cfg, store, disk.state, stateHash, disk.app, i, appHash, mutate);
                  plan.result == p.result && done == DoAll(disk, p.actions)
      {
        if appHash.Some? && appHash.value != NO_HASH && appHash.value != cfg.header(i) {
          return HashMismatch;
        }
        ghost var rest := ReplayBlocks(cfg, store, disk.state, stateHash, disk.app + [i], i + 1,
                                       Some(cfg.hash(disk.app + [i])), mutate);
        assert ([Commit(i)] + rest.actions)[1..] == rest.actions;
        appHash := Some(cfg.hash(disk.app + [i]));
        disk := disk.(app := disk.app + [i]);
        nBlocks := nBlocks + 1;
        i := i + 1;
      }
      if mutate {
        r := ReplayOne(stateHash, store, cfg.hash(disk.app + [store]), true);
      } else {
        r := if appHash != Some(stateHash) then HashMismatch else Synced;
      }
    }

    method Shake() returns (r: Result)
      modifies this
      ensures var p := Handshake(cfg, old(disk)); r == p.result && disk == DoAll(old(disk), p.actions)
      ensures cfg.Valid() && DiskOk(cfg, old(disk)) ==> Recovered(cfg, old(disk), r, disk)
    {
      hide Config.Valid, DiskOk, Recovered, OkThroughout;
      if cfg.Valid() && DiskOk(cfg, disk) {
        HandshakeRecovers(cfg, disk);
      }
      var stateHash := disk.stateHash;
      if disk.AppHeight() == 0 && disk.state == 0 {
        stateHash := if cfg.hash(disk.app) != NO_HASH then cfg.hash(disk.app) else cfg.genesisHash;
        SameSync(cfg, disk, disk.(stateHash := stateHash), stateHash);
        assert ([SaveGenesis(stateHash)] + Sync(cfg, disk, stateHash).actions)[1..]
               == Sync(cfg, disk, stateHash).actions;
        disk := disk.(stateHash := stateHash);
      }
      r := Synchronize(stateHash);
    }

    method Synchronize(stateHash: Hash) returns (r: Result)
      modifies this
      ensures var p := Sync(cfg, old(disk), stateHash); r == p.result && disk == DoAll(old(disk), p.actions)
      ensures (cfg.Valid() && DiskOk(cfg, old(disk))
               && stateHash == old(disk).stateHash == cfg.StateHash(old(disk).state)) ==>
                Recovered(cfg, old(disk), r, disk)
    {
      hide ReplayBlock, ReplayBlocks, Config.Valid, DiskOk, Recovered, OkThroughout;
      if cfg.Valid() && DiskOk(cfg, disk) && stateHash == disk.stateHash == cfg.StateHash(disk.state) {
        SyncKeeps(cfg, disk);
      }
      var app, hash := disk.AppHeight(), cfg.hash(disk.app);
      if disk.store == 0 {
        return if hash == stateHash then Synced else HashMismatch;
      }
      if app == 0 && cfg.initial < disk.base {
        return AppTooLow;
      }
      if app > 0 && app < disk.base - 1 {
        return AppTooLow;
      }
      if disk.store < app {
        return AppTooHigh;
      }
      if disk.store < disk.state {
        return StateAhead;
      }
      if disk.store > disk.state + 1 {
        return StoreAhead;
      }
      if disk.store == disk.state {
        if app < disk.store {
          r := Replay(stateHash, app, false);
          return;
        } else if app == disk.store {
          return if hash == stateHash then Synced else HashMismatch;
        }
      } else if app < disk.state {
        r := Replay(stateHash, app, true);
        return;
      } else if app == disk.state {
        r := ReplayOne(stateHash, disk.store, cfg.hash(disk.app + [disk.store]), true);
        return;
      } else if app == disk.store {
        if disk.response.None? || disk.response.value.0 != disk.store {
          return NoResponse;
        }
        r := ReplayOne(stateHash, disk.store, disk.response.value.1, false);
        return;
      }
      return Uncovered;
    }
  }

  /** The application misses blocks that are stored, and with `mutate` the state misses the last one. */
  ghost predicate Replayable(cfg: Config, d: Disk, mutate: bool) {
    && cfg.Valid() && DiskOk(cfg, d) && d.AppHeight() < d.store
    && if mutate then d.store == cfg.Next(d.state) && 0 < d.state else d.store == d.state
  }

  lemma ReplayAll(cfg: Config, d: Disk, mutate: bool)
    ensures Replayable(cfg, d, mutate) ==>
              Reaches(cfg, d, ReplayBlocks(cfg, d.store, d.state, cfg.StateHash(d.state), d.app,
                                   First(cfg, d.AppHeight()), None, mutate))
  {
    if Replayable(cfg, d, mutate) {
      ReplayKeeps(cfg, d, First(cfg, d.AppHeight()), None, mutate);
    }
  }

  lemma ApplyRuns(d: Disk, d1: Disk, d2: Disk, d3: Disk, h: nat, hash: Hash, live: bool)
    requires d1 == Do(d, SaveResponse(h, hash)) && d2 == (if live then Do(d1, Commit(h)) else d1)
    requires d3 == Do(d2, SaveState(h, hash))
    ensures DoAll(d, ApplyActions(h, hash, live)) == d3
  {
    hide Do;
    var actions := ApplyActions(h, hash, live);
    var last := [SaveState(h, hash)];
    assert last[1..] == [] && DoAll(d2, last) == d3;
    if live {
      assert actions[1..] == [Commit(h)] + last && actions[1..][1..] == last;
    } else {
      assert actions[1..] == last;
    }
  }
}
