/** The icon service's cache: entries by key, oldest first, within a byte budget. */
module IconCache {
  import opened Wrappers
  import opened Bytes

  const ENTRY_OVERHEAD := 256
  const CACHE_BUDGET := 128 * 1024 * 1024

  /** Lifetimes, in seconds. */
  const POSITIVE_TTL := 86400
  const NEGATIVE_TTL := 3600

  datatype Entry = Entry(body: ByteString, contentType: ByteString, domain: ByteString,
                         name: ByteString, desc: ByteString, fetchedAt: int, found: bool)

  function Size(e: Entry): (n: nat)
    ensures n >= ENTRY_OVERHEAD
  {
    ENTRY_OVERHEAD + |e.body| + |e.contentType| + |e.domain| + |e.name| + |e.desc|
  }

  /** An entry weighs all its bytes, and 256 for keeping it. */
  lemma SizeIsTheBytes(e: Entry)
    ensures Size(e) == 256 + |e.body + e.contentType + e.domain + e.name + e.desc|
  {
  }

  predicate Recent(e: Entry, now: int) {
    now <= e.fetchedAt + if e.found then POSITIVE_TTL else NEGATIVE_TTL
  }

  /** The bytes of the entries a list of keys names. */
  function Total(cache: map<string, Entry>, keys: seq<string>): nat
    requires forall i :: 0 <= i < |keys| ==> keys[i] in cache
  {
    if keys == [] then 0 else Size(cache[keys[0]]) + Total(cache, keys[1..])
  }

  ghost predicate Distinct(keys: seq<string>) {
    forall i, j :: 0 <= i < j < |keys| ==> keys[i] != keys[j]
  }

  ghost predicate Lists(keys: seq<string>, cache: map<string, Entry>) {
    && Distinct(keys)
    && (forall i :: 0 <= i < |keys| ==> keys[i] in cache)
    && (forall k :: k in cache ==> k in keys)
  }

  /** Every entry is the one of the larger cache. */
  ghost predicate Within(x: map<string, Entry>, y: map<string, Entry>) {
    forall k :: k in x ==> k in y && x[k] == y[k]
  }

  lemma DropOldest(keys: seq<string>, cache: map<string, Entry>)
    requires Lists(keys, cache) && keys != []
    ensures Lists(keys[1..], cache - {keys[0]})
  {
    forall k | k in cache - {keys[0]} ensures k in keys[1..] {
      var i :| 0 <= i < |keys| && keys[i] == k;
      assert keys[1..][i - 1] == k;
    }
  }

  lemma ListsReplaced(keys: seq<string>, cache: map<string, Entry>, k: string, e: Entry)
    requires Lists(keys, cache) && k in cache
    ensures Lists(keys, cache[k := e])
  {
  }

  lemma ListsAppended(keys: seq<string>, cache: map<string, Entry>, k: string, e: Entry)
    requires Lists(keys, cache) && k !in cache
    ensures Lists(keys + [k], cache[k := e])
  {
    var longer := keys + [k];
    forall x | x in cache[k := e] ensures x in longer {
      if x == k {
        assert longer[|keys|] == x;
      } else {
        var i :| 0 <= i < |keys| && keys[i] == x;
        assert longer[i] == x;
      }
    }
  }

  lemma {:induction false} TotalReads(x: map<string, Entry>, y: map<string, Entry>, keys: seq<string>)
    requires forall i :: 0 <= i < |keys| ==> keys[i] in x && keys[i] in y && x[keys[i]] == y[keys[i]]
    ensures Total(x, keys) == Total(y, keys)
  {
    if keys == [] {
    } else {
      TotalReads(x, y, keys[1..]);
    }
  }

  lemma {:induction false} TotalAppend(cache: map<string, Entry>, keys: seq<string>, k: string)
    requires k in cache && forall i :: 0 <= i < |keys| ==> keys[i] in cache
    ensures Total(cache, keys + [k]) == Total(cache, keys) + Size(cache[k])
  {
    if keys != [] {
      assert (keys + [k])[1..] == keys[1..] + [k];
      TotalAppend(cache, keys[1..], k);
    } else {
      assert [k][1..] == [];
    }
  }

  lemma {:induction false} TotalReplace(cache: map<string, Entry>, keys: seq<string>, k: string, e: Entry)
    requires Distinct(keys) && k in keys && forall i :: 0 <= i < |keys| ==> keys[i] in cache
    ensures Total(cache[k := e], keys) == Total(cache, keys) - Size(cache[k]) + Size(e)
  {
    if keys[0] == k {
      TotalReads(cache, cache[k := e], keys[1..]);
    } else {
      TotalReplace(cache, keys[1..], k, e);
    }
  }

  /** The keys after a key is stored and before anything is evicted: a refreshed key keeps its place. */
  function Queued(cache: map<string, Entry>, keys: seq<string>, k: string): seq<string> {
    if k in cache then keys else keys + [k]
  }

  /** Keeping all but fewer than n of the oldest keys would not fit. */
  ghost predicate MustGo(cache: map<string, Entry>, keys: seq<string>, n: nat)
    requires n <= |keys| && forall i :: 0 <= i < |keys| ==> keys[i] in cache
  {
    forall m :: 0 <= m < n ==> Total(cache, keys[m..]) > 134217728
  }

  lemma OneMoreMustGo(cache: map<string, Entry>, keys: seq<string>, n: nat)
    requires n < |keys| && forall i :: 0 <= i < |keys| ==> keys[i] in cache
    requires MustGo(cache, keys, n) && Total(cache, keys[n..]) > 134217728
    ensures MustGo(cache, keys, n + 1)
  {
  }

  /** n is the fewest oldest keys whose eviction makes the rest fit. */
  ghost predicate ShortestEviction(cache: map<string, Entry>, keys: seq<string>, n: nat)
    requires forall i :: 0 <= i < |keys| ==> keys[i] in cache
  {
    n <= |keys| && Total(cache, keys[n..]) <= 134217728 && MustGo(cache, keys, n)
  }

  lemma EvictionIsDetermined(cache: map<string, Entry>, keys: seq<string>, m: nat, n: nat)
    requires forall i :: 0 <= i < |keys| ==> keys[i] in cache
    requires ShortestEviction(cache, keys, m) && ShortestEviction(cache, keys, n)
    ensures m == n
  {
  }

  /** So many of the oldest keys are gone, none of them needlessly. */
  ghost predicate Evicting(all: map<string, Entry>, queue: seq<string>, n: nat, cache: map<string, Entry>,
                            order: seq<string>)
  {
    && Lists(queue, all) && Lists(order, cache) && Within(cache, all)
    && n <= |queue| && order == queue[n..] && MustGo(all, queue, n)
  }

  lemma EvictsNext(all: map<string, Entry>, queue: seq<string>, n: nat, cache: map<string, Entry>, order: seq<string>)
    requires Evicting(all, queue, n, cache, order) && order != [] && Total(cache, order) > 134217728
    ensures Evicting(all, queue, n + 1, cache - {order[0]}, order[1..])
  {
    EvictsOne(all, cache, order);
    OneMoreMustGo(all, queue, n);
  }

  lemma EvictionEnds(all: map<string, Entry>, queue: seq<string>, n: nat, cache: map<string, Entry>, order: seq<string>)
    requires Evicting(all, queue, n, cache, order) && Total(cache, order) <= 134217728
    ensures ShortestEviction(all, queue, n)
  {
    TotalReads(all, cache, order);
  }

  class Cache {
    var cache: map<string, Entry>
    var order: seq<string>
    var cacheBytes: int

    constructor ()
      ensures Valid() && cache == map[] && order == []
    {
      cache, order, cacheBytes := map[], [], 0;
    }

    ghost predicate Valid()
      reads this
    {
      Lists(order, cache) && cacheBytes == Total(cache, order) && cacheBytes <= 134217728
    }

    /** What is cached and not too old: a miss is forgotten sooner than an icon. */
    method Lookup(key: string, now: int) returns (hit: Option<Entry>)
      ensures hit.Some? <==> key in cache && Recent(cache[key], now)
      ensures hit.Some? ==> now - hit.value.fetchedAt <= 24 * 60 * 60
      ensures hit.Some? && !hit.value.found ==> now - hit.value.fetchedAt <= 60 * 60
      ensures hit.None? && key in cache ==> now - cache[key].fetchedAt > 60 * 60
      ensures hit.None? && key in cache && cache[key].found ==> now - cache[key].fetchedAt > 24 * 60 * 60
      ensures hit.Some? ==> hit.value == cache[key]
    {
      if key !in cache { return None; }
      var ttl := NEGATIVE_TTL;
      if cache[key].found {
        ttl := POSITIVE_TTL;
      }
      if now - cache[key].fetchedAt > ttl { return None; }
      hit := Some(cache[key]);
    }

    /** Drops the oldest entry. */
    method EvictOldest()
      requires Lists(order, cache) && cacheBytes == Total(cache, order) && order != []
      modifies this
      ensures order == old(order)[1..] && cache == old(cache) - {old(order)[0]}
      ensures Lists(order, cache) && cacheBytes == Total(cache, order)
    {
      EvictsOne(cache, cache, order);
      var oldest := order[0];
      order := order[1..];
      if oldest in cache {
        cacheBytes := cacheBytes - Size(cache[oldest]);
        cache := cache - {oldest};
      }
    }

    /** Drops the oldest entries until the rest fit. */
    method Evict() returns (ghost evicted: nat)
      requires Lists(order, cache) && cacheBytes == Total(cache, order)
      modifies this
      ensures Valid()
      ensures ShortestEviction(old(cache), old(order), evicted)
      ensures order == old(order)[evicted..] && Within(cache, old(cache))
    {
      ghost var all, queue := cache, order;
      evicted := 0;
      while cacheBytes > CACHE_BUDGET && |order| > 0
        invariant Evicting(all, queue, evicted, cache, order) && cacheBytes == Total(cache, order)
        decreases |order|
      {
        EvictsNext(all, queue, evicted, cache, order);
        EvictOldest();
        evicted := evicted + 1;
      }
      EvictionEnds(all, queue, evicted, cache, order);
    }

    /** Adds or replaces one entry, then drops the oldest ones until the budget holds. */
    method Store(key: string, value: Entry) returns (ghost evicted: nat)
      requires Valid()
      modifies this
      ensures Valid()
      ensures var all := old(cache)[key := value];
              var queued := Queued(old(cache), old(order), key);
              && Lists(queued, all) && ShortestEviction(all, queued, evicted)
              && order == queued[evicted..] && Within(cache, all)
      ensures order == (if key in old(cache) then old(order) else old(order) + [key])[evicted..]
    {
      ghost var all := cache[key := value];
      ghost var queued := Queued(cache, order, key);
      Enqueues(cache, order, key, value);
      if key in cache {
        cacheBytes := cacheBytes - Size(cache[key]);
      } else {
        order := order + [key];
      }
      cache := cache[key := value];
      cacheBytes := cacheBytes + Size(value);
      evicted := Evict();
    }
  }

  lemma Enqueues(cache: map<string, Entry>, order: seq<string>, key: string, value: Entry)
    requires Lists(order, cache)
    ensures var queued := Queued(cache, order, key);
            && Lists(queued, cache[key := value])
            && Total(cache[key := value], queued) ==
               Total(cache, order) - (if key in cache then Size(cache[key]) else 0) + Size(value)
  {
    if key in cache {
      ListsReplaced(order, cache, key, value);
      TotalReplace(cache, order, key, value);
    } else {
      ListsAppended(order, cache, key, value);
      TotalReads(cache, cache[key := value], order);
      TotalAppend(cache[key := value], order, key);
    }
  }

  lemma EvictsOne(all: map<string, Entry>, cache: map<string, Entry>, order: seq<string>)
    requires Lists(order, cache) && Within(cache, all) && order != []
    ensures Lists(order[1..], cache - {order[0]}) && Within(cache - {order[0]}, all)
    ensures Total(cache, order) == Size(cache[order[0]]) + Total(cache - {order[0]}, order[1..])
    ensures (forall i :: 0 <= i < |order| ==> order[i] in all) && Total(all, order) == Total(cache, order)
  {
    DropOldest(order, cache);
    TotalReads(cache, cache - {order[0]}, order[1..]);
    TotalReads(all, cache, order);
  }
}
