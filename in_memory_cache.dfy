/**
 * The in-memory cache store: entries under namespaced keys with an optional
 * expiry, at most 1000 of them (the oldest entry created before now is evicted
 * to make room), and hit/miss statistics. The JavaScript `Map` is a sequence of
 * entries in insertion order; the clock is a parameter of every call.
 */
module InMemoryCache {
  import opened Wrappers
  import Seqs

  type Time = int

  /** One cache entry, under its full key; `expiresAt` is absent for entries that never expire. */
  datatype Entry<V> = Entry(key: string, value: V, expiresAt: Option<Time>, createdAt: Time)

  /** What `getStats` reports. */
  datatype CacheStats = CacheStats(hits: nat, misses: nat, size: nat, entries: nat)

  /** What `get` does: the value it returns, the entries afterwards, and whether it counted a hit. */
  datatype Lookup<V> = Lookup(value: Option<V>, entries: seq<Entry<V>>, hit: bool)

  const MaxSize := 1000

  /** The namespace in effect: an absent or empty namespace is none at all. */
  function Namespace(namespace: Option<string>): string
  {
    if namespace.Some? then namespace.value else ""
  }

  /** `buildKey`: `namespace:key`, or the key alone without a namespace. */
  function BuildKey(key: string, namespace: Option<string>): string
  {
    if Namespace(namespace) != "" then Namespace(namespace) + ":" + key else key
  }

  /** The same key under two different namespaces gives two different stored keys. */
  lemma NamespacesNeverCollide(key: string, ns1: Option<string>, ns2: Option<string>)
    requires Namespace(ns1) != Namespace(ns2)
    ensures BuildKey(key, ns1) != BuildKey(key, ns2)
  {
    var n1, n2 := Namespace(ns1), Namespace(ns2);
    var k1, k2 := BuildKey(key, ns1), BuildKey(key, ns2);
    if n1 != "" && n2 != "" && |n1| == |n2| {
      assert k1[..|n1|] == n1 && k2[..|n2|] == n2;
    }
  }

  /** A stored key under a namespace starts with the namespace and a colon and ends with the key. */
  lemma NamespacedKeyShape(key: string, namespace: Option<string>)
    requires Namespace(namespace) != ""
    ensures var n := Namespace(namespace);
            var k := BuildKey(key, namespace);
            && |k| == |n| + 1 + |key|
            && k[..|n|] == n && k[|n|] == ':' && k[|n| + 1..] == key
  {
  }

  /** The expiry `set` stores: a ttl of 0 or an absent ttl never expires, any other is `now + ttl` seconds. */
  function ExpiryFor(ttl: Option<int>, now: Time): Option<Time>
  {
    if ttl.Some? && ttl.value != 0 then Some(now + ttl.value * 1000) else None
  }

  /** An entry is expired when it has a (non-zero) expiry and the clock is past it. */
  predicate Expired<V>(e: Entry<V>, now: Time)
  {
    e.expiresAt.Some? && e.expiresAt.value != 0 && now > e.expiresAt.value
  }

  /** An entry set with a ttl of 0 or none never expires; one set at a positive time with a positive ttl expires exactly once `now + ttl` seconds have passed. */
  lemma ExpiryWindow<V>(key: string, value: V, ttl: Option<int>, setAt: Time, later: Time)
    ensures ttl.None? || ttl.value == 0 ==> !Expired(Entry(key, value, ExpiryFor(ttl, setAt), setAt), later)
    ensures ttl.Some? && ttl.value > 0 && setAt >= 0 ==>
              (Expired(Entry(key, value, ExpiryFor(ttl, setAt), setAt), later) <==> later > setAt + ttl.value * 1000)
  {
  }

  function KeyIs<V>(key: string): Entry<V> -> bool
  {
    (e: Entry<V>) => e.key == key
  }

  function IndexOf<V>(es: seq<Entry<V>>, key: string): (r: Option<nat>)
    ensures r.Some? ==> r.value < |es| && es[r.value].key == key
    ensures r.None? <==> forall k :: 0 <= k < |es| ==> es[k].key != key
  {
    Seqs.FirstIndex(es, KeyIs(key))
  }

  /** `Map.get` on the entries. */
  function Find<V>(es: seq<Entry<V>>, key: string): Option<Entry<V>>
  {
    match IndexOf(es, key)
    case None => None
    case Some(i) => Some(es[i])
  }

  /** No two entries share a key, as in a `Map`. */
  predicate KeysUnique<V>(es: seq<Entry<V>>)
  {
    forall i, j :: 0 <= i < j < |es| ==> es[i].key != es[j].key
  }

  /** `Map.delete`. */
  function Remove<V>(es: seq<Entry<V>>, key: string): seq<Entry<V>>
  {
    match IndexOf(es, key)
    case None => es
    case Some(i) => es[..i] + es[i + 1..]
  }

  /** `Map.set`: an existing key keeps its place and takes the new entry, a new key is appended. */
  function Put<V>(es: seq<Entry<V>>, e: Entry<V>): seq<Entry<V>>
  {
    match IndexOf(es, e.key)
    case None => es + [e]
    case Some(i) => es[i := e]
  }

  /** With unique keys, the entry at any position is the one `Map.get` finds under its key. */
  lemma FindAt<V>(es: seq<Entry<V>>, i: int)
    requires KeysUnique(es) && 0 <= i < |es|
    ensures Find(es, es[i].key) == Some(es[i])
  {
    var j := IndexOf(es, es[i].key).value;
    assert j == i;
  }

  lemma FindAbsent<V>(es: seq<Entry<V>>, key: string)
    requires forall e :: e in es ==> e.key != key
    ensures Find(es, key).None?
  {
    assert forall k :: 0 <= k < |es| ==> es[k] in es;
  }

  lemma RemoveShape<V>(es: seq<Entry<V>>, key: string)
    requires KeysUnique(es)
    ensures var r := Remove(es, key);
            && KeysUnique(r)
            && (forall e :: e in r ==> e in es && e.key != key)
            && (forall e :: e in es && e.key != key ==> e in r)
            && |r| == (if Find(es, key).Some? then |es| - 1 else |es|)
  {
    match IndexOf(es, key)
    case None =>
      assert forall e :: e in es ==> e.key != key;
    case Some(i) =>
      RemoveAtShape(es, i);
  }

  /** Taking out the entry at `i` shifts the later entries down by one. */
  lemma RemoveAtIndex<V>(es: seq<Entry<V>>, i: nat)
    requires i < |es|
    ensures var r := es[..i] + es[i + 1..];
            |r| == |es| - 1 && forall k :: 0 <= k < |r| ==> r[k] == if k < i then es[k] else es[k + 1]
  {
  }

  /** Taking out the entry at `i`, the only one under its key. */
  lemma RemoveAtShape<V>(es: seq<Entry<V>>, i: nat)
    requires KeysUnique(es) && i < |es|
    ensures var r := es[..i] + es[i + 1..];
            && KeysUnique(r)
            && (forall e :: e in r ==> e in es && e.key != es[i].key)
            && (forall e :: e in es && e.key != es[i].key ==> e in r)
            && |r| == |es| - 1
  {
    RemoveAtIndex(es, i);
    RemoveAtKeys(es, i);
    RemoveAtKeeps(es, i);
    RemoveAtDrops(es, i);
  }

  lemma RemoveAtKeys<V>(es: seq<Entry<V>>, i: nat)
    requires KeysUnique(es) && i < |es|
    ensures KeysUnique(es[..i] + es[i + 1..])
  {
    var r := es[..i] + es[i + 1..];
    RemoveAtIndex(es, i);
    forall a, b | 0 <= a < b < |r|
      ensures r[a].key != r[b].key
    {
      var a', b' := if a < i then a else a + 1, if b < i then b else b + 1;
      assert r[a] == es[a'] && r[b] == es[b'];
    }
  }

  lemma RemoveAtKeeps<V>(es: seq<Entry<V>>, i: nat)
    requires KeysUnique(es) && i < |es|
    ensures forall e :: e in es[..i] + es[i + 1..] ==> e in es && e.key != es[i].key
  {
    var r := es[..i] + es[i + 1..];
    RemoveAtIndex(es, i);
    forall e | e in r
      ensures e in es && e.key != es[i].key
    {
      var k :| 0 <= k < |r| && r[k] == e;
      var j := if k < i then k else k + 1;
      assert es[j] == e && j != i;
    }
  }

  lemma RemoveAtDrops<V>(es: seq<Entry<V>>, i: nat)
    requires i < |es|
    ensures forall e :: e in es && e.key != es[i].key ==> e in es[..i] + es[i + 1..]
  {
    var r := es[..i] + es[i + 1..];
    RemoveAtIndex(es, i);
    forall e | e in es && e.key != es[i].key
      ensures e in r
    {
      var k :| 0 <= k < |es| && es[k] == e;
      if k < i { assert r[k] == e; } else { assert r[k - 1] == e; }
    }
  }

  lemma RemoveFacts<V>(es: seq<Entry<V>>, key: string)
    requires KeysUnique(es)
    ensures var r := Remove(es, key);
            && KeysUnique(r)
            && Find(r, key).None?
            && (forall other :: other != key ==> Find(r, other) == Find(es, other))
            && (forall e :: e in r ==> e in es)
            && |r| == (if Find(es, key).Some? then |es| - 1 else |es|)
  {
    var r := Remove(es, key);
    RemoveShape(es, key);
    FindAbsent(r, key);
    forall other | other != key ensures Find(r, other) == Find(es, other) {
      match IndexOf(es, other)
      case None =>
        FindAbsent(r, other);
      case Some(j) =>
        FindAt(es, j);
        assert es[j] in r;
        var k :| 0 <= k < |r| && r[k] == es[j];
        FindAt(r, k);
    }
  }

  lemma PutFacts<V>(es: seq<Entry<V>>, e: Entry<V>)
    requires KeysUnique(es)
    ensures var r := Put(es, e);
            && KeysUnique(r)
            && Find(r, e.key) == Some(e)
            && (forall other :: other != e.key ==> Find(r, other) == Find(es, other))
            && |r| == (if Find(es, e.key).Some? then |es| else |es| + 1)
  {
    var r := Put(es, e);
    var i := match IndexOf(es, e.key) case None => |es| case Some(i) => i;
    assert r[i] == e;
    FindAt(r, i);
    forall other | other != e.key ensures Find(r, other) == Find(es, other) {
      match IndexOf(es, other)
      case None =>
        FindAbsent(es, other);
        FindAbsent(r, other);
      case Some(j) =>
        FindAt(es, j);
        assert r[j] == es[j];
        FindAt(r, j);
    }
  }

  /**
   * The entry `evictLRU` picks: scanning in insertion order, the first entry whose
   * `createdAt` is below every earlier candidate, starting from `now`.
   */
  function Oldest<V>(es: seq<Entry<V>>, now: Time): (o: Option<nat>)
    ensures o.Some? ==> o.value < |es| && es[o.value].createdAt < now
    ensures o.Some? ==> forall j :: 0 <= j < |es| ==> es[o.value].createdAt <= es[j].createdAt
    ensures o.Some? ==> forall j :: 0 <= j < o.value ==> es[j].createdAt > es[o.value].createdAt
    ensures o.None? <==> forall j :: 0 <= j < |es| ==> es[j].createdAt >= now
  {
    if es == [] then None
    else
      var o := Oldest(es[..|es| - 1], now);
      var bound := if o.Some? then es[o.value].createdAt else now;
      if es[|es| - 1].createdAt < bound then Some(|es| - 1) else o
  }

  /** `evictLRU`: deletes the oldest entry created before now, unless there is none or its key is the (falsy) empty string. */
  function Evict<V>(es: seq<Entry<V>>, now: Time): seq<Entry<V>>
  {
    match Oldest(es, now)
    case None => es
    case Some(i) => if es[i].key != "" then Remove(es, es[i].key) else es
  }

  /** With unique keys, eviction removes exactly the oldest entry; when every entry is as new as now it removes nothing. */
  lemma EvictFacts<V>(es: seq<Entry<V>>, now: Time)
    requires KeysUnique(es)
    ensures KeysUnique(Evict(es, now))
    ensures forall e :: e in Evict(es, now) ==> e in es
    ensures (forall j :: 0 <= j < |es| ==> es[j].createdAt >= now) ==> Evict(es, now) == es
    ensures Oldest(es, now).Some? && es[Oldest(es, now).value].key != "" ==>
              var i := Oldest(es, now).value;
              Evict(es, now) == es[..i] + es[i + 1..] && |Evict(es, now)| == |es| - 1
  {
    match Oldest(es, now)
    case None =>
    case Some(i) =>
      RemoveFacts(es, es[i].key);
      if es[i].key != "" {
        assert IndexOf(es, es[i].key) == Some(i);
      }
  }

  /** The entries after `set`: room is made only for a new key on a full cache. */
  function Stored<V>(es: seq<Entry<V>>, fullKey: string, value: V, ttl: Option<int>, now: Time): seq<Entry<V>>
  {
    var base := if |es| >= MaxSize && Find(es, fullKey).None? then Evict(es, now) else es;
    Put(base, Entry(fullKey, value, ExpiryFor(ttl, now), now))
  }

  /** What `get` does with the entries: an expired entry is removed and counted as a miss. */
  function Got<V>(es: seq<Entry<V>>, fullKey: string, now: Time): Lookup<V>
  {
    match Find(es, fullKey)
    case None => Lookup(None, es, false)
    case Some(e) => if Expired(e, now) then Lookup(None, Remove(es, fullKey), false) else Lookup(Some(e.value), es, true)
  }

  /** A value returned by `get` is the one stored under the key, which has not expired; a miss leaves no entry under the key. */
  lemma GotFacts<V>(es: seq<Entry<V>>, fullKey: string, now: Time)
    requires KeysUnique(es)
    ensures var g := Got(es, fullKey, now);
            && KeysUnique(g.entries)
            && (g.hit <==> g.value.Some?)
            && (g.hit <==> Find(es, fullKey).Some? && !Expired(Find(es, fullKey).value, now))
            && (g.hit ==> g.value == Some(Find(es, fullKey).value.value) && g.entries == es)
            && (!g.hit ==> Find(g.entries, fullKey).None?)
            && (forall other :: other != fullKey ==> Find(g.entries, other) == Find(es, other))
            && (forall e :: e in g.entries ==> e in es)
  {
    RemoveFacts(es, fullKey);
  }

  /** After `set`, `get` on the same key returns the value until it expires. */
  lemma SetThenGet<V>(es: seq<Entry<V>>, fullKey: string, value: V, ttl: Option<int>, now: Time, later: Time)
    requires KeysUnique(es)
    requires !Expired(Entry(fullKey, value, ExpiryFor(ttl, now), now), later)
    ensures Got(Stored(es, fullKey, value, ttl, now), fullKey, later).value == Some(value)
  {
    var base := if |es| >= MaxSize && Find(es, fullKey).None? then Evict(es, now) else es;
    EvictFacts(es, now);
    PutFacts(base, Entry(fullKey, value, ExpiryFor(ttl, now), now));
  }

  /**
   * `set` keeps keys unique. Overwriting a key never evicts: the size and
   * every other entry stay. A new key on a full cache evicts the oldest entry
   * first, so the size stays at most 1000 whenever that entry exists.
   */
  lemma StoredFacts<V>(es: seq<Entry<V>>, fullKey: string, value: V, ttl: Option<int>, now: Time)
    requires KeysUnique(es)
    ensures var r := Stored(es, fullKey, value, ttl, now);
            && KeysUnique(r)
            && (Find(es, fullKey).Some? ==> |r| == |es| && forall other :: other != fullKey ==> Find(r, other) == Find(es, other))
            && (|es| < MaxSize ==> forall other :: other != fullKey ==> Find(r, other) == Find(es, other))
            && (|es| == MaxSize && Find(es, fullKey).None? && Oldest(es, now).Some? && es[Oldest(es, now).value].key != "" ==>
                  |r| == MaxSize)
  {
    var e := Entry(fullKey, value, ExpiryFor(ttl, now), now);
    if |es| >= MaxSize && Find(es, fullKey).None? {
      StoredAfterEviction(es, e, now);
    } else {
      PutFacts(es, e);
    }
  }

  /** A new key on a full cache: the eviction keeps the key absent, so the put appends it. */
  lemma StoredAfterEviction<V>(es: seq<Entry<V>>, e: Entry<V>, now: Time)
    requires KeysUnique(es) && Find(es, e.key).None?
    ensures var r := Put(Evict(es, now), e);
            && KeysUnique(r)
            && (Oldest(es, now).Some? && es[Oldest(es, now).value].key != "" ==> |r| == |es|)
  {
    EvictFacts(es, now);
    var base := Evict(es, now);
    forall x | x in base
      ensures x.key != e.key
    {
      var k :| 0 <= k < |es| && es[k] == x;
    }
    FindAbsent(base, e.key);
    PutFacts(base, e);
  }

  /** When every entry of a full cache was created at the current time, a new key is added without eviction and the cache grows past 1000. */
  lemma NothingOlderThanNow<V>(es: seq<Entry<V>>, fullKey: string, value: V, ttl: Option<int>, now: Time)
    requires KeysUnique(es) && |es| == MaxSize && Find(es, fullKey).None?
    requires forall j :: 0 <= j < |es| ==> es[j].createdAt == now
    ensures |Stored(es, fullKey, value, ttl, now)| == MaxSize + 1
  {
    EvictFacts(es, now);
    PutFacts(es, Entry(fullKey, value, ExpiryFor(ttl, now), now));
  }

  lemma OldestStep<V>(es: seq<Entry<V>>, i: nat, now: Time)
    requires i < |es|
    ensures var o := Oldest(es[..i], now);
            var bound := if o.Some? then es[o.value].createdAt else now;
            Oldest(es[..i + 1], now) == if es[i].createdAt < bound then Some(i) else o
  {
    assert es[..i + 1][..i] == es[..i];
    var o := Oldest(es[..i], now);
    if o.Some? {
      assert es[..i + 1][o.value] == es[o.value];
    }
  }

  /** The scan of `evictLRU`: the key of the oldest entry found, if any. */
  method FindOldest<V>(es: seq<Entry<V>>, now: Time) returns (oldestKey: Option<string>)
    ensures Oldest(es, now).None? ==> oldestKey.None?
    ensures Oldest(es, now).Some? ==> oldestKey == Some(es[Oldest(es, now).value].key)
  {
    oldestKey := None;
    var oldestTime := now;
    for i := 0 to |es|
      invariant var o := Oldest(es[..i], now);
                && (o.None? ==> oldestKey.None? && oldestTime == now)
                && (o.Some? ==> o.value < i && oldestKey == Some(es[o.value].key) && oldestTime == es[o.value].createdAt)
    {
      OldestStep(es, i, now);
      if es[i].createdAt < oldestTime {
        oldestTime := es[i].createdAt;
        oldestKey := Some(es[i].key);
      }
    }
    assert es[..|es|] == es;
  }

  /** The cache service: its entries in insertion order and its hit/miss counters. */
  class InMemoryCacheService<V> {
    var entries: seq<Entry<V>>
    var hits: nat
    var misses: nat
    /** Whether the periodic cleanup timer is still registered. */
    var cleanupScheduled: bool

    predicate Valid()
      reads this`entries
    {
      KeysUnique(entries)
    }

    constructor ()
      ensures Valid() && entries == [] && hits == 0 && misses == 0 && cleanupScheduled
    {
      entries := [];
      hits, misses := 0, 0;
      cleanupScheduled := true;
    }

    /** `get`: exactly one of hits and misses goes up. */
    method Get(key: string, namespace: Option<string>, now: Time) returns (r: Option<V>)
      requires Valid()
      modifies this`entries, this`hits, this`misses
      ensures Valid()
      ensures var g := Got(old(entries), BuildKey(key, namespace), now);
              && r == g.value && entries == g.entries
              && hits == old(hits) + (if g.hit then 1 else 0)
              && misses == old(misses) + (if g.hit then 0 else 1)
    {
      GotFacts(entries, BuildKey(key, namespace), now);
      var fullKey := BuildKey(key, namespace);
      var entry := Find(entries, fullKey);
      if entry.None? {
        misses := misses + 1;
        return None;
      }
      if Expired(entry.value, now) {
        entries := Remove(entries, fullKey);
        misses := misses + 1;
        return None;
      }
      hits := hits + 1;
      r := Some(entry.value.value);
    }

    /** `set`, with the ttl in seconds. */
    method Set(key: string, value: V, namespace: Option<string>, ttl: Option<int>, now: Time)
      requires Valid()
      modifies this`entries
      ensures Valid()
      ensures entries == Stored(old(entries), BuildKey(key, namespace), value, ttl, now)
    {
      StoredFacts(entries, BuildKey(key, namespace), value, ttl, now);
      var fullKey := BuildKey(key, namespace);
      if |entries| >= MaxSize && Find(entries, fullKey).None? {
        EvictLru(now);
      }
      entries := Put(entries, Entry(fullKey, value, ExpiryFor(ttl, now), now));
    }

    method EvictLru(now: Time)
      requires Valid()
      modifies this`entries
      ensures entries == Evict(old(entries), now)
    {
      var oldestKey := FindOldest(entries, now);
      if oldestKey.Some? && oldestKey.value != "" {
        entries := Remove(entries, oldestKey.value);
      }
    }

    /** `delete`: only the namespaced key goes. */
    method Delete(key: string, namespace: Option<string>)
      requires Valid()
      modifies this`entries
      ensures Valid()
      ensures entries == Remove(old(entries), BuildKey(key, namespace))
    {
      RemoveFacts(entries, BuildKey(key, namespace));
      entries := Remove(entries, BuildKey(key, namespace));
    }

    /** `clear`: no entries, zeroed statistics, and the cleanup timer stopped. */
    method Clear()
      modifies this
      ensures Valid() && entries == [] && hits == 0 && misses == 0 && !cleanupScheduled
    {
      entries := [];
      hits, misses := 0, 0;
      cleanupScheduled := false;
    }

    function GetStats(): (s: CacheStats)
      reads this`entries, this`hits, this`misses
      ensures s.size == s.entries == |entries|
      ensures s.hits == hits && s.misses == misses
    {
      CacheStats(hits, misses, |entries|, |entries|)
    }
  }
}
