/**
 * The transaction list of the mempool, its index, and the recheck of what is left after a block
 * (mempool/clist_mempool.go).
 */
module Mempool {
  import opened Options
  import TxCache

  /** A transaction and its key stand for each other. */
  type Tx = TxCache.Key

  /** A list element; `id` stands for its address. */
  datatype Element = Element(id: nat, tx: Tx)

  datatype Config = Config(
    size: nat, maxTxsBytes: nat, maxTxBytes: nat, cacheSize: int, keepInvalidTxsInCache: bool,
    recheck: bool, length: Tx -> nat)
  {
    function Bytes(s: seq<Element>): nat {
      if s == [] then 0 else length(s[0].tx) + Bytes(s[1..])
    }
  }

  /** The application's answer about one transaction, with the post-check folded in. */
  datatype Answer = Answer(tx: Tx, valid: bool)

  // ----- lists -----------------------------------------------------------------------------------

  predicate Unique(s: seq<Element>) {
    forall i, j :: 0 <= i < j < |s| ==> s[i].tx != s[j].tx
  }

  /** Position of the first entry with that transaction, or the length of the list. */
  function Find(s: seq<Element>, t: Tx): (k: nat)
    ensures k <= |s| && (k < |s| ==> s[k].tx == t) && forall j :: 0 <= j < k ==> s[j].tx != t
  {
    if s == [] then 0 else if s[0].tx == t then 0 else 1 + Find(s[1..], t)
  }

  predicate Contains(s: seq<Element>, t: Tx) {
    Find(s, t) < |s|
  }

  function Remove(s: seq<Element>, t: Tx): seq<Element> {
    if s == [] then [] else if s[0].tx == t then s[1..] else [s[0]] + Remove(s[1..], t)
  }

  /** The list in its order, without some transactions. */
  function FilterOut(s: seq<Element>, bad: set<Tx>): seq<Element> {
    if s == [] then [] else if s[0].tx in bad then FilterOut(s[1..], bad) else [s[0]] + FilterOut(s[1..], bad)
  }

  lemma FindIs(s: seq<Element>, k: nat)
    requires Unique(s) && k < |s|
    ensures Find(s, s[k].tx) == k
  {
  }

  lemma SoughtFrom(s: seq<Element>, first: nat, at: nat, t: Tx)
    requires Unique(s) && first <= at <= |s| && (at < |s| ==> s[at].tx == t)
    requires forall j :: first <= j < at ==> s[j].tx != t
    ensures Contains(s[first..], t) <==> at < |s|
    ensures at < |s| ==> Find(s[first..], t) == at - first && Find(s, t) == at
  {
    var k := Find(s[first..], t);
    assert k < |s| - first ==> s[first..][k] == s[first + k];
    if at < |s| {
      assert s[first..][at - first].tx == t;
      FindIs(s, at);
    }
  }

  lemma {:induction false} RemoveAt(s: seq<Element>, t: Tx)
    ensures Remove(s, t) == var k := Find(s, t); if k < |s| then s[..k] + s[k + 1..] else s
  {
    if s != [] && s[0].tx != t {
      RemoveAt(s[1..], t);
    }
  }

  lemma {:induction false} RemoveKeeps(cfg: Config, s: seq<Element>, t: Tx)
    requires Unique(s)
    ensures Unique(Remove(s, t)) && |Remove(s, t)| <= |s| && forall e :: e in Remove(s, t) <==> e in s && e.tx != t
    ensures cfg.Bytes(Remove(s, t)) + (if Contains(s, t) then cfg.length(t) else 0) == cfg.Bytes(s)
  {
    if s != [] {
      assert s == [s[0]] + s[1..];
      if s[0].tx != t {
        RemoveKeeps(cfg, s[1..], t);
        var rest := Remove(s[1..], t);
        assert ([s[0]] + rest)[1..] == rest;
        assert Unique([s[0]] + rest) by { UniqueCons(s[0], rest); }
      }
    }
  }

  lemma UniqueCons(e: Element, rest: seq<Element>)
    requires Unique(rest) && forall x <- rest :: x.tx != e.tx
    ensures Unique([e] + rest)
  {
  }

  lemma {:induction false} BytesSplit(cfg: Config, a: seq<Element>, b: seq<Element>)
    ensures cfg.Bytes(a + b) == cfg.Bytes(a) + cfg.Bytes(b)
  {
    if a == [] {
      assert a + b == b;
    } else {
      assert (a + b)[1..] == a[1..] + b;
      BytesSplit(cfg, a[1..], b);
    }
  }

  lemma {:induction false} FilterOutNothing(s: seq<Element>)
    ensures FilterOut(s, {}) == s
  {
    if s != [] {
      FilterOutNothing(s[1..]);
    }
  }

  lemma {:induction false} FilterOutOneMore(s: seq<Element>, bad: set<Tx>, t: Tx)
    requires Unique(s)
    ensures Remove(FilterOut(s, bad), t) == FilterOut(s, bad + {t})
  {
    if s != [] {
      FilterOutOneMore(s[1..], bad, t);
      var rest := FilterOut(s[1..], bad);
      if s[0].tx in bad {
      } else if s[0].tx == t {
        FilterOutMembers(s[1..], bad);
        RemoveAbsent(rest, t);
        assert ([s[0]] + rest)[1..] == rest;
      } else {
        assert ([s[0]] + rest)[1..] == rest;
      }
    }
  }

  lemma {:induction false} RemoveAbsent(s: seq<Element>, t: Tx)
    requires forall e <- s :: e.tx != t
    ensures Remove(s, t) == s
  {
    if s != [] {
      RemoveAbsent(s[1..], t);
    }
  }

  /** Exactly the other transactions are left. */
  lemma {:induction false} FilterOutUnique(s: seq<Element>, bad: set<Tx>)
    requires Unique(s)
    ensures Unique(FilterOut(s, bad))
  {
    if s != [] {
      FilterOutUnique(s[1..], bad);
      FilterOutMembers(s[1..], bad);
      UniqueCons(s[0], FilterOut(s[1..], bad));
    }
  }

  lemma {:induction false} FilterOutMembers(s: seq<Element>, bad: set<Tx>)
    ensures forall e :: e in FilterOut(s, bad) <==> e in s && e.tx !in bad
  {
    if s != [] {
      FilterOutMembers(s[1..], bad);
    }
  }

  /** The index holds exactly the elements of the list. */
  ghost predicate Indexed(s: seq<Element>, index: map<Tx, Element>) {
    && (forall e <- s :: e.tx in index && index[e.tx] == e)
    && (forall t <- index :: index[t].tx == t && index[t] in s)
  }

  lemma IndexedWithout(s: seq<Element>, index: map<Tx, Element>, r: seq<Element>, t: Tx)
    requires Indexed(s, index) && forall e :: e in r <==> e in s && e.tx != t
    ensures Indexed(r, index - {t})
  {
  }

  lemma IndexedWith(s: seq<Element>, index: map<Tx, Element>, e: Element)
    requires Indexed(s, index) && e.tx !in index && Unique(s)
    ensures Indexed(s + [e], index[e.tx := e]) && Unique(s + [e])
  {
    forall i | 0 <= i < |s|
      ensures s[i].tx != e.tx
    {
      assert s[i] in s;
    }
  }

  // ----- what a recheck should do ----------------------------------------------------------------

  ghost function Invalid(answers: seq<Answer>): set<Tx> {
    set a | a in answers && !a.valid :: a.tx
  }

  /** Answers come in the order of the list; some may be missing. */
  predicate InOrder(pending: seq<Element>, answers: seq<Answer>)
    decreases |answers|
  {
    answers == [] || (Contains(pending, answers[0].tx)
       && InOrder(pending[Find(pending, answers[0].tx) + 1..], answers[1..]))
  }

  /** What the application answers about a list, if it answers. */
  function AnswersFor(s: seq<Element>, answered: Tx -> bool, valid: Tx -> bool): seq<Answer> {
    if s == [] then []
    else (if answered(s[0].tx) then [Answer(s[0].tx, valid(s[0].tx))] else []) + AnswersFor(s[1..], answered, valid)
  }

  lemma {:induction false} AnswersComeInOrder(s: seq<Element>, answered: Tx -> bool, valid: Tx -> bool)
    requires Unique(s)
    ensures InOrder(s, AnswersFor(s, answered, valid))
  {
    if s != [] {
      AnswersComeInOrder(s[1..], answered, valid);
      var rest := AnswersFor(s[1..], answered, valid);
      if answered(s[0].tx) {
        assert ([Answer(s[0].tx, valid(s[0].tx))] + rest)[1..] == rest;
      } else {
        assert [] + rest == rest;
        if rest != [] {
          var k := Find(s[1..], rest[0].tx);
          assert s[1..][k] == s[k + 1] && s[1..][k + 1..] == s[k + 2..];
        }
      }
    }
  }

  lemma InvalidOneMore(answers: seq<Answer>, i: nat)
    requires i < |answers|
    ensures Invalid(answers[..i + 1]) ==
            if answers[i].valid then Invalid(answers[..i]) else Invalid(answers[..i]) + {answers[i].tx}
  {
    assert answers[..i + 1] == answers[..i] + [answers[i]];
  }

  lemma RestAfter(s: seq<Element>, first: nat, at: nat)
    requires Unique(s) && first <= at < |s|
    ensures s[first..][at - first + 1..] == s[at + 1..] && Contains(s, s[at].tx)
  {
    FindIs(s, at);
  }

  /** Removing an entry before position `at` moves the rest down by one. */
  lemma TailAfterRemove(s: seq<Element>, t: Tx, at: nat)
    requires Find(s, t) < at < |s|
    ensures |Remove(s, t)| == |s| - 1 && Remove(s, t)[at - 1..] == s[at..]
    ensures Remove(s, t)[at - 1] == s[at] && Remove(s, t)[|s| - 2] == s[|s| - 1]
  {
    RemoveAt(s, t);
    hide Remove, Find;
  }

  // ----- the mempool -----------------------------------------------------------------------------

  class CListMempool {
    const cfg: Config
    var txs: seq<Element>
    var txsMap: map<Tx, Element>
    var txsBytes: int
    var nextId: nat
    var cache: seq<Tx>
    var cursor: Option<Element>
    var end: Option<Element>
    var isRechecking: bool
    var recheckFull: bool
    ghost var at: nat                                 // position of the cursor

    /** List and map agree, the byte counter is exact, and the limits hold. */
    ghost predicate Valid()
      reads this`txs, this`txsMap, this`txsBytes
    {
      && Unique(txs) && Indexed(txs, txsMap)
      && txsBytes == cfg.Bytes(txs)
      && |txs| <= cfg.size && txsBytes <= cfg.maxTxsBytes
    }

    /** The cache holds distinct transactions, as many as configured at most. */
    ghost predicate CacheOk()
      reads this`cache
    {
      TxCache.Distinct(cache) && |cache| <= TxCache.Capacity(cfg.cacheSize)
    }

    /** During a recheck the cursor is on the list, and its end is the last entry. */
    ghost predicate CursorOk()
      reads this`txs, this`cursor, this`end, this`isRechecking, this`at
    {
      if isRechecking then at < |txs| && cursor == Some(txs[at]) && end == Some(txs[|txs| - 1]) else cursor.None?
    }

    /** The entries still to be rechecked. */
    ghost function Pending(): seq<Element>
      requires CursorOk()
      reads this`txs, this`cursor, this`end, this`isRechecking, this`at
    {
      if isRechecking then txs[at..] else []
    }

    constructor (cfg: Config)
      ensures Valid() && CursorOk() && !isRechecking && txs == [] && cache == [] && this.cfg == cfg
    {
      this.cfg := cfg;
      txs, txsMap, txsBytes, nextId, cache := [], map[], 0, 0, [];
      cursor, end, isRechecking, recheckFull := None, None, false, false;
    }

    predicate IsFull(txSize: nat)
      reads this
    {
      |txs| >= cfg.size || txSize + txsBytes > cfg.maxTxsBytes || recheckFull
    }

    /** There is room exactly for what keeps both limits, unless a pending recheck has closed the mempool. */
    lemma RoomExactly(txSize: nat)
      ensures !IsFull(txSize) <==> !recheckFull && |txs| + 1 <= cfg.size && txsBytes + txSize <= cfg.maxTxsBytes
    {
    }

    /** The index answers as a search of the list would. */
    lemma IndexAgrees(t: Tx)
      requires Valid()
      ensures t in txsMap <==> Contains(txs, t)
      ensures t in txsMap ==> txsMap[t] == txs[Find(txs, t)]
    {
      if t in txsMap {
        var i :| 0 <= i < |txs| && txs[i] == txsMap[t];
        FindIs(txs, i);
      }
      if Contains(txs, t) {
        assert txs[Find(txs, t)] in txs;
      }
    }

    lemma ForgottenKeeps(c: seq<Tx>, tx: Tx)
      requires TxCache.Distinct(c) && |c| <= TxCache.Capacity(cfg.cacheSize)
      ensures var r := Forgotten(c, tx); TxCache.Distinct(r) && |r| <= TxCache.Capacity(cfg.cacheSize)
    {
      TxCache.WithoutDistinct(c, tx);
    }

    lemma {:induction false} CacheAfterKeeps(c: seq<Tx>, block: seq<Answer>)
      requires TxCache.Distinct(c) && |c| <= TxCache.Capacity(cfg.cacheSize)
      ensures var r := CacheAfter(c, block); TxCache.Distinct(r) && |r| <= TxCache.Capacity(cfg.cacheSize)
    {
      if block != [] {
        var before, b := block[..|block| - 1], block[|block| - 1];
        CacheAfterKeeps(c, before);
        TxCache.PushedKeeps(CacheAfter(c, before), cfg.cacheSize, b.tx);
        ForgottenKeeps(CacheAfter(c, before), b.tx);
      }
    }

    lemma ListIsUnique()
      requires Valid()
      ensures Unique(txs)
    {
    }

    method AddTx(tx: Tx)
      requires Valid() && tx !in txsMap && |txs| < cfg.size && txsBytes + cfg.length(tx) <= cfg.maxTxsBytes
      modifies this`txs, this`txsMap, this`txsBytes, this`nextId
      ensures Valid() && txs == old(txs) + [Element(old(nextId), tx)]
    {
      var e := Element(nextId, tx);
      BytesSplit(cfg, txs, [e]);
      assert [e][1..] == [];
      IndexedWith(txs, txsMap, e);
      hide Indexed, Unique;
      txs, txsMap, txsBytes, nextId := txs + [e], txsMap[tx := e], txsBytes + cfg.length(tx), nextId + 1;
    }

    method RemoveTxByKey(tx: Tx) returns (found: bool)
      requires Valid()
      modifies this`txs, this`txsMap, this`txsBytes
      ensures Valid() && found == Contains(old(txs), tx) && txs == Remove(old(txs), tx)
    {
      IndexAgrees(tx);
      RemoveKeeps(cfg, txs, tx);
      IndexedWithout(txs, txsMap, Remove(txs, tx), tx);
      assert tx in txsMap ==> txsMap[tx] in txs && txsMap[tx].tx == tx;
      hide Remove, Find, Unique, Config.Bytes, Indexed;
      if tx in txsMap {
        var elem := txsMap[tx];
        Unlink(elem);
        txsMap := txsMap - {tx};
        txsBytes := txsBytes - cfg.length(elem.tx);
        return true;
      }
      RemoveAt(txs, tx);
      return false;
    }

    /** Takes an element out of the linked list. */
    method Unlink(e: Element)
      requires Unique(txs) && e in txs
      modifies this`txs
      ensures txs == Remove(old(txs), e.tx)
    {
      var k :| 0 <= k < |txs| && txs[k] == e;
      FindIs(txs, k);
      RemoveAt(txs, e.tx);
      txs := txs[..k] + txs[k + 1..];
    }

    /** The checks before a transaction goes to the application; it is then remembered in the cache. */
    method CheckTx(tx: Tx, preCheckOk: bool, appOk: bool) returns (sent: bool)
      modifies this`cache
      ensures sent <==> !IsFull(cfg.length(tx)) && cfg.length(tx) <= cfg.maxTxBytes
                        && preCheckOk && appOk && tx !in old(cache)
      ensures cache == if !IsFull(cfg.length(tx)) && cfg.length(tx) <= cfg.maxTxBytes && preCheckOk && appOk
                       then TxCache.Pushed(old(cache), cfg.cacheSize, tx) else old(cache)
    {
      if IsFull(cfg.length(tx)) || cfg.length(tx) > cfg.maxTxBytes || !preCheckOk || !appOk {
        return false;
      }
      sent := tx !in cache;
      cache := TxCache.Pushed(cache, cfg.cacheSize, tx);
    }

    /** What the cache keeps of a transaction that is not kept for being invalid. */
    function Forgotten(c: seq<Tx>, tx: Tx): seq<Tx> {
      if cfg.keepInvalidTxsInCache then c else TxCache.Without(c, tx)
    }

    /** First answer of the application: the limits are checked again before the transaction is added. */
    method ResCbFirstTime(tx: Tx, good: bool) returns (panicked: bool)
      requires Valid() && CursorOk()
      modifies this
      ensures panicked <==> old(isRechecking)
      ensures Valid() && (!panicked ==> CursorOk() && !isRechecking)
      ensures txs == if good && !panicked && !old(IsFull(cfg.length(tx))) && !old(Contains(txs, tx))
                     then old(txs) + [Element(old(nextId), tx)] else old(txs)
      ensures cache == if panicked then old(cache)
                       else if good then if old(IsFull(cfg.length(tx)))
                              then TxCache.Without(old(cache), tx) else old(cache)
                       else Forgotten(old(cache), tx)
    {
      if isRechecking {
        return true;
      }
      IndexAgrees(tx);
      if good {
        if IsFull(cfg.length(tx)) {
          cache := TxCache.Without(cache, tx);
          return false;
        }
        if tx in txsMap {
          return false;
        }
        AddTx(tx);
      } else if !cfg.keepInvalidTxsInCache {
        cache := TxCache.Without(cache, tx);
      }
      return false;
    }

    // ----- recheck -------------------------------------------------------------------------------

    method InitRecheck()
      requires CursorOk() && !isRechecking && txs != []
      modifies this`cursor, this`end, this`isRechecking, this`at
      ensures CursorOk() && isRechecking && Pending() == txs
    {
      cursor, end, isRechecking := Some(txs[0]), Some(txs[|txs| - 1]), true;
      at := 0;
    }

    method SetDone()
      modifies this`cursor, this`recheckFull, this`isRechecking
      ensures CursorOk() && !isRechecking
    {
      cursor, recheckFull, isRechecking := None, false, false;
    }

    /** Lock: a pending recheck makes the mempool count as full until it ends. */
    method SetRecheckFull() returns (changed: bool)
      modifies this`recheckFull
      ensures recheckFull == isRechecking && (changed <==> recheckFull != old(recheckFull))
    {
      changed := isRechecking != recheckFull;
      recheckFull := isRechecking;
    }

    function Next(e: Element): Option<Element>
      reads this
    {
      var i := Find(txs, e.tx);
      if i + 1 < |txs| then Some(txs[i + 1]) else None
    }

    /** Walks from the cursor to the entry of `tx`, or off the list. */
    method Seek(tx: Tx) returns (found: bool)
      requires Unique(txs) && at < |txs| && cursor == Some(txs[at])
      modifies this`cursor, this`at
      ensures found <==> Contains(txs[old(at)..], tx)
      ensures found ==>
                at < |txs| && cursor == Some(txs[at]) && at == old(at) + Find(txs[old(at)..], tx) == Find(txs, tx)
    {
      hide Find, Unique, Contains;
      ghost var first := at;
      while cursor.Some? && cursor.value.tx != tx
        invariant first <= at <= |txs| && cursor == (if at < |txs| then Some(txs[at]) else None)
        invariant forall j :: first <= j < at ==> txs[j].tx != tx
        decreases |txs| - at
      {
        FindIs(txs, at);
        cursor := Next(cursor.value);
        at := at + 1;
      }
      SoughtFrom(txs, first, at, tx);
      return cursor.Some?;
    }

    /**
     * Moves the cursor past the entry of `tx`. There is no test for the end of the list: `ok` is false when the search
     * runs off it, which is exactly when `tx` is not among the entries still to be rechecked.
     */
    method FindNextEntryMatching(tx: Tx) returns (ok: bool)
      requires Unique(txs) && CursorOk() && isRechecking
      modifies this`cursor, this`isRechecking, this`recheckFull, this`at
      ensures ok <==> Contains(old(Pending()), tx)
      ensures ok ==> CursorOk() && Pending() == old(Pending())[Find(old(Pending()), tx) + 1..]
      ensures ok ==> Contains(txs, tx) && (isRechecking ==> Find(txs, tx) < at)
      ensures ok ==> (isRechecking <==> Pending() != [])
    {
      hide Find, Unique, Contains;
      ghost var first := at;
      ok := Seek(tx);
      if !ok {
        return;
      }
      FindIs(txs, at);
      RestAfter(txs, first, at);
      if cursor == end {
        FindIs(txs, |txs| - 1);
        SetDone();
      } else {
        cursor := Next(cursor.value);
        at := at + 1;
      }
    }

    /** A recheck answer. Late ones are discarded; `ok` is false when the source would dereference nil. */
    method GlobalCb(a: Answer) returns (ok: bool)
      requires Valid() && CursorOk()
      modifies this
      ensures ok <==> !old(isRechecking) || Contains(old(Pending()), a.tx)
      ensures !old(isRechecking) ==> txs == old(txs) && !isRechecking && CursorOk() && Valid()
      ensures ok && old(isRechecking) ==>
                && Valid() && CursorOk()
                && txs == (if a.valid then old(txs) else Remove(old(txs), a.tx))
                && Pending() == old(Pending())[Find(old(Pending()), a.tx) + 1..]
                && (isRechecking <==> Pending() != [])
                && cache == (if a.valid then old(cache) else Forgotten(old(cache), a.tx))
    {
      hide Valid, Find, Remove, CursorOk, Pending, Contains, Unique;
      if !isRechecking {
        return true;
      }
      ListIsUnique();
      ok := FindNextEntryMatching(a.tx);
      if ok && !a.valid {
        RemoveRechecked(a.tx);
      }
    }

    /** The cursor has passed the entry that is removed. */
    method RemoveRechecked(tx: Tx)
      requires Valid() && CursorOk() && Contains(txs, tx) && (isRechecking ==> Find(txs, tx) < at)
      modifies this`txs, this`txsMap, this`txsBytes, this`cache, this`at
      ensures Valid() && CursorOk() && txs == Remove(old(txs), tx) && Pending() == old(Pending())
      ensures cache == Forgotten(old(cache), tx)
    {
      hide Find, Remove, Valid;
      if isRechecking {
        TailAfterRemove(txs, tx, at);
      }
      var _ := RemoveTxByKey(tx);
      if isRechecking {
        at := at - 1;
      }
      if !cfg.keepInvalidTxsInCache {
        cache := TxCache.Without(cache, tx);
      }
    }

    /** Rechecking leaves the list as it was, minus the transactions reported invalid. */
    method RecheckTxs(answers: seq<Answer>)
      requires Valid() && CursorOk() && !isRechecking && InOrder(txs, answers)
      modifies this
      ensures Valid() && CursorOk() && !isRechecking
      ensures txs == FilterOut(old(txs), Invalid(answers)) && (old(CacheOk()) ==> CacheOk())
    {
      hide CacheOk;
      hide FilterOut, Remove, Find, Contains, Invalid, Unique, Valid, InOrder, CursorOk, Pending;
      FilterOutNothing(txs);
      ListIsUnique();
      if |txs| <= 0 {
        FilterOutEmpty(Invalid(answers));
        return;
      }
      InitRecheck();
      assert answers[..0] == [] && answers[0..] == answers && Invalid([]) == {} by { NoneInvalid(); }
      for i := 0 to |answers|
        invariant Rechecked(old(txs), answers, i) && (old(CacheOk()) ==> CacheOk())
      {
        TakeAnswer(old(txs), answers, i);
      }
      assert answers[..|answers|] == answers;
      if isRechecking {
        SetDone();
      }
    }

    /** After the first `i` answers: the rest is in order, and the list is what they leave of `start`. */
    ghost predicate Rechecked(start: seq<Element>, answers: seq<Answer>, i: nat)
      reads this`txs, this`txsMap, this`txsBytes, this`cursor, this`end, this`isRechecking, this`at
    {
      && i <= |answers| && Unique(start) && Valid() && CursorOk()
      && InOrder(Pending(), answers[i..]) && (isRechecking <==> Pending() != [])
      && txs == FilterOut(start, Invalid(answers[..i]))
    }

    method TakeAnswer(ghost start: seq<Element>, answers: seq<Answer>, i: nat)
      requires i < |answers| && Rechecked(start, answers, i)
      modifies this
      ensures Rechecked(start, answers, i + 1) && (old(CacheOk()) ==> CacheOk())
    {
      if CacheOk() {
        ForgottenKeeps(cache, answers[i].tx);
      }
      hide FilterOut, Remove, Find, Contains, Invalid, Unique, Valid, InOrder, CursorOk;
      assert answers[i..][1..] == answers[i + 1..];
      InOrderStep(Pending(), answers[i..]);
      InvalidOneMore(answers, i);
      FilterOutOneMore(start, Invalid(answers[..i]), answers[i].tx);
      var _ := GlobalCb(answers[i]);
    }

    /** A block removes its transactions, and what is left is rechecked. */
    method Update(block: seq<Answer>, answers: seq<Answer>)
      requires Valid() && CursorOk() && !isRechecking
      requires InOrder(FilterOut(txs, Included(block)), answers)
      modifies this
      ensures Valid() && CursorOk() && !isRechecking
      ensures txs == var left := FilterOut(old(txs), Included(block));
                     if cfg.recheck then FilterOut(left, Invalid(answers)) else left
      ensures old(CacheOk()) ==> CacheOk()
    {
      if CacheOk() {
        CacheAfterKeeps(cache, block);
      }
      RemoveBlock(block);
      if cfg.recheck {
        RecheckTxs(answers);
      }
    }

    /** Valid transactions of a block become the most recent ones; invalid ones are forgotten. */
    function CacheAfter(c: seq<Tx>, block: seq<Answer>): seq<Tx> {
      if block == [] then c
      else
        var before, b := CacheAfter(c, block[..|block| - 1]), block[|block| - 1];
        if b.valid then TxCache.Pushed(before, cfg.cacheSize, b.tx) else Forgotten(before, b.tx)
    }

    /** The last transaction of a block is the most recent one, or if invalid forgotten unless configured otherwise. */
    lemma CacheAfterLast(c: seq<Tx>, block: seq<Answer>)
      requires block != []
      ensures var b, r := block[|block| - 1], CacheAfter(c, block);
              if b.valid then r != [] && r[|r| - 1] == b.tx
              else if cfg.keepInvalidTxsInCache then r == CacheAfter(c, block[..|block| - 1]) else b.tx !in r
    {
    }

    method RemoveBlock(block: seq<Answer>)
      requires Valid() && CursorOk() && !isRechecking
      modifies this`txs, this`txsMap, this`txsBytes, this`cache
      ensures Valid() && CursorOk() && txs == FilterOut(old(txs), Included(block))
      ensures cache == CacheAfter(old(cache), block)
    {
      hide FilterOut, Remove, Find, Contains, Unique, Valid;
      FilterOutNothing(txs);
      ListIsUnique();
      assert block[..0] == [] && Included([]) == {};
      hide Included;
      for i := 0 to |block|
        invariant Valid() && CursorOk() && txs == FilterOut(old(txs), Included(block[..i]))
        invariant cache == CacheAfter(old(cache), block[..i])
      {
        var b := block[i];
        if b.valid {
          cache := TxCache.Pushed(cache, cfg.cacheSize, b.tx);
        } else if !cfg.keepInvalidTxsInCache {
          cache := TxCache.Without(cache, b.tx);
        }
        BlockOneMore(block, i);
        FilterOutOneMore(old(txs), Included(block[..i]), b.tx);
        var _ := RemoveTxByKey(b.tx);
      }
      assert block[..|block|] == block;
    }

    method Flush()
      modifies this`txs, this`txsMap, this`txsBytes, this`cache
      ensures Valid() && txs == [] && cache == []
    {
      txs, txsMap, txsBytes, cache := [], map[], 0, [];
    }

    // ----- any run -------------------------------------------------------------------------------

    /** Between the operations no recheck is pending. */
    ghost predicate Idle()
      reads this
    {
      Valid() && CursorOk() && !isRechecking && CacheOk()
    }

    /** Everything listed was listed before, or the application accepted it in one of the operations. */
    ghost predicate AllAccepted(before: seq<Element>, ops: seq<Operation>)
      reads this`txs
    {
      forall e <- txs :: e in before || FirstAnswer(e.tx, true) in ops
    }

    method Step(op: Operation) returns (panicked: bool)
      requires Idle()
      modifies this
      ensures Idle() && !panicked && AllAccepted(old(txs), [op])
    {
      hide Find, FilterOut, Indexed, Unique, Included, Contains, Config.Bytes, TxCache.Distinct, TxCache.Pushed;
      hide TxCache.Without;
      panicked := false;
      match op
      case Submit(tx, preCheckOk, appOk) =>
        TxCache.PushedKeeps(cache, cfg.cacheSize, tx);
        var _ := CheckTx(tx, preCheckOk, appOk);
      case FirstAnswer(tx, good) =>
        TxCache.WithoutDistinct(cache, tx);
        ForgottenKeeps(cache, tx);
        panicked := ResCbFirstTime(tx, good);
      case Lock =>
        var _ := SetRecheckFull();
      case Commit(block, answered, valid) =>
        CommitStep(block, answered, valid);
      case FlushAll =>
        EmptyIsDistinct();
        Flush();
    }

    method CommitStep(block: seq<Answer>, answered: Tx -> bool, valid: Tx -> bool)
      requires Idle()
      modifies this
      ensures Idle() && forall e <- txs :: e in old(txs)
    {
      hide Find, FilterOut, InOrder, Indexed, Unique, Included, Config.Bytes, CacheOk;
      ListIsUnique();
      FilterOutMembers(txs, Included(block));
      FilterOutUnique(txs, Included(block));
      ghost var first := FilterOut(txs, Included(block));
      ghost var answers := AnswersFor(first, answered, valid);
      AnswersComeInOrder(first, answered, valid);
      FilterOutMembers(first, Invalid(answers));
      Update(block, AnswersFor(FilterOut(txs, Included(block)), answered, valid));
    }

    /**
     * Over any run nothing panics, list, index, counter and cache stay in agreement, and only accepted transactions are
     * listed.
     */
    method Run(ops: seq<Operation>) returns (panicked: bool)
      requires Idle()
      modifies this
      ensures Idle() && !panicked && AllAccepted(old(txs), ops)
    {
      hide Idle;
      panicked := false;
      for i := 0 to |ops|
        invariant Idle() && AllAccepted(old(txs), ops[..i])
      {
        panicked := Step(ops[i]);
        assert ops[..i + 1] == ops[..i] + [ops[i]];
        if panicked {
          return;
        }
      }
      assert ops[..|ops|] == ops;
    }

    /** One more than `max` transactions may come back. */
    method ReapMaxTxs(max: int) returns (r: seq<Tx>)
      ensures |r| == if max < 0 || max + 1 >= |txs| then |txs| else max + 1
      ensures forall i :: 0 <= i < |r| ==> r[i] == txs[i].tx
    {
      var limit := if max < 0 then |txs| else max;
      r := [];
      var i := 0;
      while i < |txs| && |r| <= limit
        invariant i == |r| <= |txs| && (limit + 1 <= |txs| ==> i <= limit + 1)
        invariant forall j :: 0 <= j < i ==> r[j] == txs[j].tx
      {
        r := r + [txs[i].tx];
        i := i + 1;
      }
    }
  }

  /** What happens to the mempool from outside; a commit holds the lock until its recheck has ended. */
  datatype Operation =
    | Submit(tx: Tx, preCheckOk: bool, appOk: bool) | FirstAnswer(tx: Tx, good: bool) | Lock
    | Commit(block: seq<Answer>, answered: Tx -> bool, valid: Tx -> bool) | FlushAll

  lemma BlockOneMore(block: seq<Answer>, i: nat)
    requires i < |block|
    ensures block[..i + 1] == block[..i] + [block[i]] && block[..i + 1][..i] == block[..i]
    ensures Included(block[..i + 1]) == Included(block[..i]) + {block[i].tx}
  {
    assert block[..i + 1] == block[..i] + [block[i]];
  }

  lemma EmptyIsDistinct()
    ensures TxCache.Distinct([])
  {
  }

  function Included(block: seq<Answer>): set<Tx> {
    set b | b in block :: b.tx
  }

  lemma FilterOutEmpty(bad: set<Tx>)
    ensures FilterOut([], bad) == []
  {
  }

  lemma NoneInvalid()
    ensures Invalid([]) == {}
  {
  }

  lemma InOrderStep(pending: seq<Element>, answers: seq<Answer>)
    requires InOrder(pending, answers) && answers != []
    ensures Contains(pending, answers[0].tx) && pending != [] && Find(pending, answers[0].tx) < |pending|
    ensures InOrder(pending[Find(pending, answers[0].tx) + 1..], answers[1..])
  {
  }
}
