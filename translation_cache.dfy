/**
 * JavaScript `Map`s as the service uses them: the provider registry and the
 * result cache (src/lib/translationService.js:262-265, 375-387), whose
 * iteration order is insertion order. A full cache
 * deletes its first key, the oldest INSERTED one, before the new entry is set:
 * eviction is first-in first-out, and reading an entry never moves it.
 */
module TranslationCache {
  import opened JsText

  /** `this.maxCacheSize` */
  const MaxCacheSize: nat := 1000

  /**
   * A JavaScript `Map` with string keys: its entries together with its keys in
   * insertion order. The service's cache and its provider registry are both one.
   */
  datatype OrderedMap<V> = OrderedMap(entries: map<string, V>, order: seq<string>)

  /** `order` lists every key of `entries` exactly once. */
  ghost predicate WellFormed<V>(c: OrderedMap<V>) {
    && (forall i, j | 0 <= i < j < |c.order| :: c.order[i] != c.order[j])
    && (forall k :: k in c.entries <==> k in c.order)
  }

  /** `new Map()` */
  function Empty<V>(): (c: OrderedMap<V>)
    ensures WellFormed(c)
  {
    OrderedMap(map[], [])
  }

  /** `cache.has(key) ? cache.get(key) : undefined` */
  function Get<V>(c: OrderedMap<V>, key: string): Option<V> {
    if key in c.entries then Some(c.entries[key]) else None
  }

  /** `cache.delete(cache.keys().next().value)`: drop the first key, if there is one. */
  function EvictOldest<V>(c: OrderedMap<V>): OrderedMap<V> {
    if c.order == [] then c else OrderedMap(c.entries - {c.order[0]}, c.order[1..])
  }

  /** `cache.set(key, value)`: an existing key keeps its place, a new key goes last. */
  function Set<V>(c: OrderedMap<V>, key: string, value: V): OrderedMap<V> {
    if key in c.entries then OrderedMap(c.entries[key := value], c.order)
    else OrderedMap(c.entries[key := value], c.order + [key])
  }

  /** `addToCache(key, value)` without the `cached` stamp: evict the oldest entry when full, then set. */
  function Insert<V>(c: OrderedMap<V>, key: string, value: V, capacity: nat): OrderedMap<V> {
    Set(if |c.order| >= capacity then EvictOldest(c) else c, key, value)
  }

  /** `cache.clear()` */
  function Clear<V>(c: OrderedMap<V>): (r: OrderedMap<V>)
    ensures WellFormed(r) && r.order == [] && forall k :: Get(r, k).None?
  {
    Empty()
  }

  lemma EvictOldestWellFormed<V>(c: OrderedMap<V>)
    requires WellFormed(c)
    ensures WellFormed(EvictOldest(c))
    ensures c.order != [] ==> c.order[0] !in EvictOldest(c).entries
  {
    if c.order != [] {
      var d := EvictOldest(c);
      forall k ensures k in d.entries <==> k in d.order {
        if k in d.order {
          var i :| 0 <= i < |d.order| && d.order[i] == k;
          assert c.order[i + 1] == k;
        }
        if k in c.order && k != c.order[0] {
          var i :| 0 <= i < |c.order| && c.order[i] == k;
          assert d.order[i - 1] == k;
        }
      }
    }
  }

  /** `cache.size` is the length of the insertion order. */
  lemma EntriesMatchOrder<V>(c: OrderedMap<V>)
    requires WellFormed(c)
    ensures |c.entries| == |c.order|
  {
    DistinctCard(c.order);
    assert c.entries.Keys == set k | k in c.order;
  }

  lemma {:induction false} DistinctCard(s: seq<string>)
    requires forall i, j | 0 <= i < j < |s| :: s[i] != s[j]
    ensures |set k | k in s| == |s|
  {
    if s != [] {
      var t := s[..|s| - 1];
      DistinctCard(t);
      assert (set k | k in s) == (set k | k in t) + {s[|s| - 1]};
      assert forall i | 0 <= i < |t| :: t[i] == s[i];
    }
  }

  /** `Map.set` keeps the order a duplicate-free listing of the keys. */
  lemma SetWellFormed<V>(c: OrderedMap<V>, key: string, value: V)
    requires WellFormed(c)
    ensures WellFormed(Set(c, key, value))
  {
    if key !in c.entries {
      var r := Set(c, key, value);
      forall i, j | 0 <= i < j < |r.order| ensures r.order[i] != r.order[j] {
        if j == |r.order| - 1 { assert c.order[i] in c.entries; }
      }
    }
  }

  /** Inserting keeps the order a duplicate-free listing of the keys, and never exceeds the capacity. */
  lemma InsertWellFormed<V>(c: OrderedMap<V>, key: string, value: V, capacity: nat)
    requires WellFormed(c) && |c.order| <= capacity && capacity > 0
    ensures WellFormed(Insert(c, key, value, capacity))
    ensures |Insert(c, key, value, capacity).order| <= capacity
  {
    EvictOldestWellFormed(c);
    SetWellFormed(if |c.order| >= capacity then EvictOldest(c) else c, key, value);
  }

  /** What `addToCache` does to every key: the new key holds the new value, the evicted key is gone, all others are untouched. */
  lemma InsertEffect<V>(c: OrderedMap<V>, key: string, value: V, capacity: nat, other: string)
    requires WellFormed(c)
    ensures Get(Insert(c, key, value, capacity), key) == Some(value)
    ensures other != key ==>
              Get(Insert(c, key, value, capacity), other) ==
                if |c.order| >= capacity && c.order != [] && other == c.order[0] then None else Get(c, other)
  {
    EvictOldestWellFormed(c);
  }

  /**
   * First-in first-out: the key a full cache drops is the one inserted longest
   * ago (the head of the order), and a new key is placed last.
   */
  lemma InsertOrder<V>(c: OrderedMap<V>, key: string, value: V, capacity: nat)
    requires WellFormed(c) && key !in c.entries
    ensures Insert(c, key, value, capacity).order ==
              (if |c.order| >= capacity && c.order != [] then c.order[1..] else c.order) + [key]
  {
    EvictOldestWellFormed(c);
  }

  /** Inserting `(key, value)` pairs one after another. */
  function InsertAll<V>(c: OrderedMap<V>, pairs: seq<(string, V)>, capacity: nat): OrderedMap<V>
    decreases |pairs|
  {
    if pairs == [] then c
    else InsertAll(Insert(c, pairs[0].0, pairs[0].1, capacity), pairs[1..], capacity)
  }

  function Keys<V>(pairs: seq<(string, V)>): seq<string> {
    seq(|pairs|, i requires 0 <= i < |pairs| => pairs[i].0)
  }

  lemma KeysCons<V>(pairs: seq<(string, V)>)
    requires pairs != []
    ensures Keys(pairs) == [pairs[0].0] + Keys(pairs[1..])
  {
  }

  predicate DistinctKeys<V>(pairs: seq<(string, V)>) {
    forall i, j | 0 <= i < j < |pairs| :: pairs[i].0 != pairs[j].0
  }

  /** Below capacity, a fresh key is appended and nothing is evicted. */
  lemma InsertFreshAppends<V>(c: OrderedMap<V>, key: string, value: V, capacity: nat)
    requires WellFormed(c) && key !in c.entries && |c.order| < capacity
    ensures WellFormed(Insert(c, key, value, capacity))
    ensures Insert(c, key, value, capacity) == OrderedMap(c.entries[key := value], c.order + [key])
  {
    SetWellFormed(c, key, value);
  }

  /** Up to capacity, fresh distinct keys are appended in the order they are inserted. */
  lemma {:induction false} InsertAllAppends<V>(c: OrderedMap<V>, pairs: seq<(string, V)>, capacity: nat)
    requires WellFormed(c) && DistinctKeys(pairs)
    requires forall i | 0 <= i < |pairs| :: pairs[i].0 !in c.entries
    requires |c.order| + |pairs| <= capacity
    ensures WellFormed(InsertAll(c, pairs, capacity))
    ensures InsertAll(c, pairs, capacity).order == c.order + Keys(pairs)
    decreases |pairs|
  {
    if pairs != [] {
      var c' := Insert(c, pairs[0].0, pairs[0].1, capacity);
      assert InsertAll(c, pairs, capacity) == InsertAll(c', pairs[1..], capacity);
      InsertHead(c, pairs, capacity);
      InsertAllAppends(c', pairs[1..], capacity);
      KeysCons(pairs);
    }
  }

  /** One step of `InsertAllAppends`: after the first pair goes in, the rest are still fresh and distinct. */
  lemma InsertHead<V>(c: OrderedMap<V>, pairs: seq<(string, V)>, capacity: nat)
    requires WellFormed(c) && DistinctKeys(pairs) && pairs != []
    requires forall i | 0 <= i < |pairs| :: pairs[i].0 !in c.entries
    requires |c.order| < capacity
    ensures var c' := Insert(c, pairs[0].0, pairs[0].1, capacity);
            && WellFormed(c') && c'.order == c.order + [pairs[0].0]
            && DistinctKeys(pairs[1..])
            && forall i | 0 <= i < |pairs[1..]| :: pairs[1..][i].0 !in c'.entries
  {
    var rest := pairs[1..];
    InsertFreshAppends(c, pairs[0].0, pairs[0].1, capacity);
    forall i | 0 <= i < |rest| ensures rest[i].0 != pairs[0].0 && rest[i].0 !in c.entries {
      assert rest[i] == pairs[i + 1];
    }
    forall i, j | 0 <= i < j < |rest| ensures rest[i].0 != rest[j].0 {
      assert rest[i] == pairs[i + 1] && rest[j] == pairs[j + 1];
    }
  }

  /**
   * Filling an empty cache with `capacity` distinct keys and inserting one more
   * evicts exactly the first key inserted; every other key is still cached.
   */
  lemma FullCacheEvictsFirstInserted<V>(pairs: seq<(string, V)>, key: string, value: V, capacity: nat)
    requires |pairs| == capacity > 0 && DistinctKeys(pairs)
    requires forall i | 0 <= i < |pairs| :: pairs[i].0 != key
    ensures var full := InsertAll(Empty(), pairs, capacity);
            var after := Insert(full, key, value, capacity);
            && Get(after, pairs[0].0).None?
            && Get(after, key) == Some(value)
            && (forall i | 1 <= i < |pairs| :: Get(after, pairs[i].0).Some?)
  {
    var full := InsertAll(Empty<V>(), pairs, capacity);
    InsertAllAppends(Empty<V>(), pairs, capacity);
    assert full.order == Keys(pairs);
    forall i | 0 <= i < |pairs| ensures
      Get(Insert(full, key, value, capacity), pairs[i].0) == if i == 0 then None else Get(full, pairs[i].0)
    {
      InsertEffect(full, key, value, capacity, pairs[i].0);
      if i > 0 { assert full.order[0] == pairs[0].0 != pairs[i].0; }
    }
    forall i | 0 <= i < |pairs| ensures pairs[i].0 in full.entries {
      assert full.order[i] == pairs[i].0;
    }
    InsertEffect(full, key, value, capacity, key);
  }
}
