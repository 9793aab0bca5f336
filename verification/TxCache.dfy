/** The cache of transactions seen lately (mempool/cache.go). */
module TxCache {
  type Key = nat

  // ----- the cache as a recency sequence, oldest first ------------------------------------------

  predicate Distinct(s: seq<Key>) {
    forall i, j :: 0 <= i < j < |s| ==> s[i] != s[j]
  }

  function Without(s: seq<Key>, k: Key): (r: seq<Key>)
    ensures k !in r && |r| <= |s| && forall x :: x in r <==> x in s && x != k
  {
    if s == [] then [] else if s[0] == k then Without(s[1..], k) else [s[0]] + Without(s[1..], k)
  }

  /** A known key becomes the most recent; a new one first evicts the oldest when the cache is full. */
  function Pushed(s: seq<Key>, size: int, k: Key): seq<Key> {
    if k in s then Without(s, k) + [k]
    else if |s| >= size && s != [] then s[1..] + [k]
    else s + [k]
  }

  function Capacity(size: int): nat {
    if size < 1 then 1 else size
  }

  lemma {:induction false} WithoutSplits(s: seq<Key>, t: seq<Key>, k: Key)
    ensures Without(s + t, k) == Without(s, k) + Without(t, k)
  {
    if s == [] {
      assert s + t == t;
    } else {
      assert (s + t)[1..] == s[1..] + t;
      WithoutSplits(s[1..], t, k);
    }
  }

  lemma {:induction false} WithoutAbsent(s: seq<Key>, k: Key)
    requires k !in s
    ensures Without(s, k) == s
  {
    if s != [] {
      WithoutAbsent(s[1..], k);
    }
  }

  lemma WithoutAt(s: seq<Key>, i: nat)
    requires Distinct(s) && i < |s|
    ensures Without(s, s[i]) == s[..i] + s[i + 1..]
  {
    var k, head, tail := s[i], s[..i], s[i + 1..];
    assert ([k] + tail)[1..] == tail;
    assert Without([k] + tail, k) == Without(tail, k);
    hide Without;
    assert s == head + ([k] + tail) && k !in head && k !in tail;
    WithoutSplits(head, [k] + tail, k);
    WithoutAbsent(head, k);
    WithoutAbsent(tail, k);
  }

  lemma WithoutDistinct(s: seq<Key>, k: Key)
    requires Distinct(s)
    ensures Distinct(Without(s, k)) && (k in s ==> |Without(s, k)| == |s| - 1)
  {
    if k in s {
      var i :| 0 <= i < |s| && s[i] == k;
      WithoutAt(s, i);
    } else {
      WithoutAbsent(s, k);
    }
  }

  /** Keys stay distinct and at most `size` of them are kept (one, if the size is not positive). */
  lemma PushedKeeps(s: seq<Key>, size: int, k: Key)
    requires Distinct(s) && |s| <= Capacity(size)
    ensures var r := Pushed(s, size, k); Distinct(r) && |r| <= Capacity(size) && r[|r| - 1] == k
  {
    WithoutDistinct(s, k);
  }

  // ----- least recently used --------------------------------------------------------------------

  /** All keys ever pushed, by the time of their last push. */
  function Recency(pushes: seq<Key>): seq<Key> {
    if pushes == [] then [] else Without(Recency(pushes[..|pushes| - 1]), pushes[|pushes| - 1]) + [pushes[|pushes| - 1]]
  }

  function PushAll(size: int, pushes: seq<Key>): seq<Key> {
    if pushes == [] then [] else Pushed(PushAll(size, pushes[..|pushes| - 1]), size, pushes[|pushes| - 1])
  }

  function Latest(s: seq<Key>, n: nat): seq<Key> {
    if |s| <= n then s else s[|s| - n..]
  }

  lemma {:induction false} RecencyDistinct(pushes: seq<Key>)
    ensures Distinct(Recency(pushes))
  {
    if pushes != [] {
      RecencyDistinct(pushes[..|pushes| - 1]);
      WithoutDistinct(Recency(pushes[..|pushes| - 1]), pushes[|pushes| - 1]);
    }
  }

  lemma PushedIsLatest(r: seq<Key>, size: int, k: Key)
    requires Distinct(r)
    ensures Pushed(Latest(r, Capacity(size)), size, k) == Latest(Without(r, k) + [k], Capacity(size))
  {
    var s := Latest(r, Capacity(size));
    var older := r[..|r| - |s|];
    assert r == older + s;
    WithoutSplits(older, s, k);
    hide Without, Latest, Pushed;
    if k in s {
      assert k !in older;
      PushKnown(older, s, size, k) by { LatestLength(r, Capacity(size)); }
    } else {
      PushNew(older, s, size, k) by { LatestLength(r, Capacity(size)); }
    }
  }

  lemma LatestLength(r: seq<Key>, n: nat)
    requires Distinct(r)
    ensures var s := Latest(r, n); Distinct(s) && (|s| == n || (|s| < n && |s| == |r|))
  {
  }

  lemma PushKnown(older: seq<Key>, s: seq<Key>, size: int, k: Key)
    requires Distinct(s) && k in s && k !in older
    requires |s| == Capacity(size) || (|s| < Capacity(size) && older == [])
    ensures Pushed(s, size, k) == Latest(Without(older, k) + Without(s, k) + [k], Capacity(size))
  {
    WithoutAbsent(older, k);
    WithoutDistinct(s, k);
    hide Without;
    LatestOfSum(older, Without(s, k) + [k], Capacity(size));
    assert older + Without(s, k) + [k] == older + (Without(s, k) + [k]);
  }

  lemma PushNew(older: seq<Key>, s: seq<Key>, size: int, k: Key)
    requires Distinct(s) && k !in s
    requires |s| == Capacity(size) || (|s| < Capacity(size) && older == [])
    ensures Pushed(s, size, k) == Latest(Without(older, k) + Without(s, k) + [k], Capacity(size))
  {
    WithoutAbsent(s, k);
    assert older == [] ==> Without(older, k) == [];
    var rest := Without(older, k);
    hide Without;
    if |s| < Capacity(size) {
      assert rest + s + [k] == s + [k];
    } else {
      assert rest + s + [k] == (rest + s[..1]) + (s[1..] + [k]);
      LatestOfSum(rest + s[..1], s[1..] + [k], Capacity(size));
    }
  }

  lemma LatestOfSum(a: seq<Key>, b: seq<Key>, n: nat)
    requires |b| == n || (|b| < n && a == [])
    ensures Latest(a + b, n) == b
  {
  }

  /** The cache holds exactly the most recently pushed keys: what it evicts is the least recently pushed. */
  lemma {:induction false} CacheIsMostRecent(size: int, pushes: seq<Key>)
    ensures PushAll(size, pushes) == Latest(Recency(pushes), Capacity(size))
  {
    if pushes != [] {
      var before := pushes[..|pushes| - 1];
      CacheIsMostRecent(size, before);
      RecencyDistinct(before);
      PushedIsLatest(Recency(before), size, pushes[|pushes| - 1]);
    }
  }

  // ----- map and list ---------------------------------------------------------------------------

  /** A list element; `id` stands for its address. */
  datatype Element = Element(id: nat, key: Key)

  function Keys(list: seq<Element>): (r: seq<Key>)
    ensures |r| == |list| && forall i :: 0 <= i < |r| ==> r[i] == list[i].key
  {
    seq(|list|, i requires 0 <= i < |list| => list[i].key)
  }

  function IndexOf(list: seq<Element>, e: Element): (i: nat)
    requires e in list
    ensures i < |list| && list[i] == e
  {
    if list[0] == e then 0 else 1 + IndexOf(list[1..], e)
  }

  /** Takes the element with that address out of the list. */
  function Unlink(list: seq<Element>, e: Element): seq<Element>
    requires e in list
  {
    var i := IndexOf(list, e);
    list[..i] + list[i + 1..]
  }

  class LRUTxCache {
    const size: int
    var cacheMap: map<Key, Element>
    var list: seq<Element>
    var nextId: nat

    /** Map and list hold the same elements, each once. */
    ghost predicate Valid()
      reads this
    {
      && Distinct(Keys(list)) && |list| <= Capacity(size)
      && (forall e <- list :: e.key in cacheMap && cacheMap[e.key] == e && e.id < nextId)
      && (forall k <- cacheMap :: cacheMap[k].key == k && cacheMap[k] in list)
    }

    constructor (size: int)
      ensures Valid() && list == [] && this.size == size
    {
      this.size, cacheMap, list, nextId := size, map[], [], 0;
    }

    method Reset()
      requires Valid()
      modifies this
      ensures Valid() && Keys(list) == []
    {
      cacheMap, list := map[], [];
    }

    method Push(key: Key) returns (added: bool)
      requires Valid()
      modifies this
      ensures Valid() && Keys(list) == Pushed(old(Keys(list)), size, key)
      ensures added <==> key !in old(Keys(list))
    {
      KeysOfMap(key);
      if key in cacheMap {
        MoveToBack(cacheMap[key]);
        return false;
      }
      if |list| >= size {
        if |list| > 0 {
          EvictFront();
        }
      }
      PushBack(key);
      return true;
    }

    lemma KeysOfMap(key: Key)
      requires Valid()
      ensures key in cacheMap <==> key in Keys(list)
    {
      if key in cacheMap {
        var i := IndexOf(list, cacheMap[key]);
        assert Keys(list)[i] == key;
      }
      if key in Keys(list) {
        var i :| 0 <= i < |list| && Keys(list)[i] == key;
        assert list[i] in list;
      }
    }

    method MoveToBack(e: Element)
      requires Valid() && e in list
      modifies this`list
      ensures Valid() && Keys(list) == Without(old(Keys(list)), e.key) + [e.key]
    {
      ghost var before := Keys(list);
      UnlinkKeys(list, e);
      WithoutDistinct(before, e.key);
      list := Unlink(list, e) + [e];
      assert Keys(list) == Without(before, e.key) + [e.key];
    }

    method EvictFront()
      requires Valid() && list != []
      modifies this`list, this`cacheMap
      ensures Valid() && Keys(list) == old(Keys(list))[1..] && |list| == old(|list|) - 1
      ensures forall k :: k in cacheMap <==> k in old(cacheMap) && k != old(list[0].key)
    {
      var front := list[0];
      UnlinkKeys(list, front);
      WithoutAt(Keys(list), 0);
      WithoutDistinct(Keys(list), front.key);
      cacheMap := cacheMap - {front.key};
      list := Unlink(list, front);
    }

    method PushBack(key: Key)
      requires Valid() && key !in cacheMap && |list| < Capacity(size)
      modifies this`list, this`cacheMap, this`nextId
      ensures Valid() && Keys(list) == old(Keys(list)) + [key]
    {
      KeysOfMap(key);
      var e := Element(nextId, key);
      assert Keys(list + [e]) == Keys(list) + [key];
      list, cacheMap, nextId := list + [e], cacheMap[key := e], nextId + 1;
    }

    method Remove(key: Key)
      requires Valid()
      modifies this
      ensures Valid() && Keys(list) == Without(old(Keys(list)), key)
    {
      ghost var before := Keys(list);
      WithoutDistinct(before, key);
      if key in cacheMap {
        var e := cacheMap[key];
        UnlinkKeys(list, e);
        list := Unlink(list, e);
      } else {
        WithoutAbsent(before, key);
      }
      cacheMap := cacheMap - {key};
    }

    method Has(key: Key) returns (ok: bool)
      requires Valid()
      ensures ok <==> key in Keys(list)
    {
      KeysOfMap(key);
      return key in cacheMap;
    }
  }

  lemma UnlinkKeys(list: seq<Element>, e: Element)
    requires e in list && Distinct(Keys(list))
    ensures Keys(Unlink(list, e)) == Without(Keys(list), e.key)
    ensures forall x :: x in Unlink(list, e) <==> x in list && x.key != e.key
    ensures e.key in Keys(list)
  {
    var i := IndexOf(list, e);
    assert Keys(list)[i] == e.key;
    WithoutAt(Keys(list), i);
    assert Keys(list[..i] + list[i + 1..]) == Keys(list)[..i] + Keys(list)[i + 1..];
    forall x | x in list && x.key != e.key
      ensures x in Unlink(list, e)
    {
      var j :| 0 <= j < |list| && list[j] == x;
      assert j != i;
    }
    forall x | x in Unlink(list, e)
      ensures x in list && x.key != e.key
    {
      if x in list[..i] {
        var j :| 0 <= j < i && list[j] == x;
        assert Keys(list)[j] != Keys(list)[i];
      } else {
        var j :| i < j < |list| && list[j] == x;
        assert Keys(list)[i] != Keys(list)[j];
      }
    }
  }
}
