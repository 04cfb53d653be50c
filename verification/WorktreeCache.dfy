/**
The cache of worktree contexts: insertion-ordered entries with a lifetime, a bound, one config
watcher per entry and counters. The operations on values come first, then the class that performs them.
 */
module WorktreeCache {
  import opened Wrappers

  type Key = string

  /** `noConfig` says that the scan found no config file at its expected path. */
  datatype Entry = Entry(scannedAt: int, noConfig: bool, watcher: Option<nat>)

  /** `open` maps each open watcher to the key its callback invalidates; `insertions` only counts. */
  datatype Cache = Cache(
    order: seq<Key>, table: map<Key, Entry>, open: map<nat, Key>, nextId: nat,
    hits: nat, misses: nat, invalidations: nat, evictions: nat, insertions: nat)

  const EMPTY: Cache := Cache([], map[], map[], 0, 0, 0, 0, 0, 0)

  function Elems(order: seq<Key>): set<Key> { set k | k in order }

  lemma ElemsOfConcat(a: seq<Key>, b: seq<Key>)
    ensures Elems(a + b) == Elems(a) + Elems(b)
  {
  }

  function Remove(order: seq<Key>, k: Key): (r: seq<Key>)
    ensures Elems(r) == Elems(order) - {k}
  {
    if order == [] then []
    else
      ElemsOfConcat([order[0]], order[1..]);
      ElemsOfConcat([order[0]], Remove(order[1..], k));
      assert order == [order[0]] + order[1..];
      if order[0] == k then Remove(order[1..], k) else [order[0]] + Remove(order[1..], k)
  }

  function Closed(open: map<nat, Key>, w: Option<nat>): map<nat, Key> {
    if w.Some? then open - {w.value} else open
  }

  function Invalidate(c: Cache, k: Key): Cache {
    if k !in c.table then c
    else c.(order := Remove(c.order, k), table := c.table - {k}, open := Closed(c.open, c.table[k].watcher),
            invalidations := c.invalidations + 1)
  }

  /** Entries in insertion order are exactly the keys of the table, each once. */
  ghost predicate Wf(c: Cache) {
    Distinct(c.order) && Elems(c.order) == c.table.Keys
  }

  lemma {:induction false} RemoveKeepsDistinct(order: seq<Key>, k: Key)
    requires Distinct(order)
    ensures Distinct(Remove(order, k)) && |Remove(order, k)| == |order| - (if k in Elems(order) then 1 else 0)
  {
    if order != [] {
      var tail, rest := order[1..], Remove(order[1..], k);
      RemoveKeepsDistinct(tail, k);
      assert order == [order[0]] + tail && order[0] !in Elems(tail);
      if order[0] != k {
        assert order[0] !in Elems(rest);
        forall j | 0 <= j < |rest| ensures rest[j] != order[0] { assert rest[j] in Elems(rest); }
      }
    }
  }

  lemma InvalidateWf(c: Cache, k: Key)
    requires Wf(c)
    ensures Wf(Invalidate(c, k))
    ensures |Invalidate(c, k).order| == |c.order| - (if k in c.table then 1 else 0)
  {
    RemoveKeepsDistinct(c.order, k);
  }

  function EvictOldest(c: Cache): (d: Cache)
    requires Wf(c) && c.order != []
    ensures Wf(d) && |d.order| == |c.order| - 1
  {
    InvalidateWf(c.(evictions := c.evictions + 1), c.order[0]);
    assert c.order[0] in Elems(c.order);
    Invalidate(c.(evictions := c.evictions + 1), c.order[0])
  }

  /** Removes oldest entries until there is room. */
  function Evict(max: nat, c: Cache): Cache
    requires Wf(c)
    decreases |c.order|
  {
    if |c.order| < max || c.order == [] then c else Evict(max, EvictOldest(c))
  }

  /** Storing a key that is already there keeps its place in the order and forgets its old watcher. */
  function Store(c: Cache, k: Key, scannedAt: int, noConfig: bool, watch: bool): Cache {
    var w := if watch then Some(c.nextId) else None;
    c.(order := if k in c.table then c.order else c.order + [k],
       table := c.table[k := Entry(scannedAt, noConfig, w)],
       open := if watch then c.open[c.nextId := k] else c.open,
       nextId := c.nextId + 1,
       insertions := c.insertions + 1)
  }

  predicate IsHit(ttl: int, c: Cache, k: Key, now: int, configAppeared: bool) {
    k in c.table && !(c.table[k].noConfig && configAppeared) && now - c.table[k].scannedAt < ttl
  }

  function Peek(ttl: int, c: Cache, k: Key, now: int, configAppeared: bool): Cache {
    if IsHit(ttl, c, k, now, configAppeared) then c.(order := Remove(c.order, k) + [k], hits := c.hits + 1)
    else Invalidate(c, k)
  }

  /** The callback of a watcher, if it is still open. */
  function Fire(c: Cache, w: nat): Cache {
    if w in c.open then Invalidate(c, c.open[w]) else c
  }

  function ClearAll(c: Cache): Cache
    requires Wf(c)
    decreases |c.order|
  {
    if c.order == [] then c
    else
      InvalidateWf(c, c.order[0]);
      ClearAll(Invalidate(c, c.order[0]))
  }

  class WorktreeContextCache {
    const ttlMs: int
    const maxEntries: nat
    var order: seq<Key>
    var table: map<Key, Entry>
    var openWatchers: map<nat, Key>
    var nextId: nat
    var hits: nat
    var misses: nat
    var invalidations: nat
    var evictions: nat
    ghost var insertions: nat

    ghost function Value(): Cache
      reads this
    {
      Cache(order, table, openWatchers, nextId, hits, misses, invalidations, evictions, insertions)
    }

    constructor (ttlMs: int, maxEntries: nat)
      ensures Value() == EMPTY && this.ttlMs == ttlMs && this.maxEntries == maxEntries
    {
      this.ttlMs, this.maxEntries := ttlMs, maxEntries;
      order, table, openWatchers, nextId := [], map[], map[], 0;
      hits, misses, invalidations, evictions, insertions := 0, 0, 0, 0, 0;
    }

    method InvalidateKey(k: Key)
      modifies this
      ensures Value() == Invalidate(old(Value()), k)
    {
      if k !in table { return; }
      var entry := table[k];
      if entry.watcher.Some? { openWatchers := openWatchers - {entry.watcher.value}; }
      order := Remove(order, k);
      table := table - {k};
      invalidations := invalidations + 1;
    }

    method PeekContext(k: Key, now: int, configAppeared: bool) returns (scannedAt: Option<int>)
      requires Wf(Value())
      modifies this
      ensures Value() == Peek(ttlMs, old(Value()), k, now, configAppeared)
      ensures scannedAt.Some? <==> IsHit(ttlMs, old(Value()), k, now, configAppeared)
      ensures scannedAt.Some? ==> scannedAt.value == old(table)[k].scannedAt
    {
      var cached := if k in table then Some(table[k]) else None;
      if cached.Some? && cached.value.noConfig && configAppeared {
        InvalidateKey(k);
        cached := None;
      }
      if cached.Some? && now - cached.value.scannedAt < ttlMs {
        order := Remove(order, k) + [k];
        hits := hits + 1;
        return Some(cached.value.scannedAt);
      }
      if cached.Some? { InvalidateKey(k); }
      return None;
    }

    /** The part of `getContext` before it waits for the scan; on a miss, `started` is the time of the scan. */
    method BeginGet(k: Key, now: int, later: int, configAppeared: bool) returns (hit: bool, started: int)
      requires Wf(Value())
      modifies this
      ensures hit == IsHit(ttlMs, old(Value()), k, now, configAppeared)
      ensures Value() ==
              var c := Peek(ttlMs, old(Value()), k, now, configAppeared);
              if hit then c else c.(misses := c.misses + 1)
      ensures started == later
    {
      started := later;
      var cached := PeekContext(k, now, configAppeared);
      hit := cached.Some?;
      if !hit { misses := misses + 1; }
    }

    method MakeRoom()
      requires Wf(Value())
      modifies this
      ensures Value() == Evict(maxEntries, old(Value()))
    {
      ghost var c0 := Value();
      while |order| >= maxEntries && order != []
        invariant Wf(Value()) && Evict(maxEntries, Value()) == Evict(maxEntries, c0)
        decreases |order|
      {
        ghost var c := Value();
        var oldest := order[0];
        evictions := evictions + 1;
        InvalidateKey(oldest);
        assert Value() == EvictOldest(c);
      }
    }

    /** The part of `getContext` after the scan. */
    method Insert(k: Key, scannedAt: int, noConfig: bool, watch: bool)
      requires Wf(Value())
      modifies this
      ensures Value() == Store(Evict(maxEntries, old(Value())), k, scannedAt, noConfig, watch)
    {
      MakeRoom();
      var watcher := if watch then Some(nextId) else None;
      if watch { openWatchers := openWatchers[nextId := k]; }
      if k !in table { order := order + [k]; }
      table := table[k := Entry(scannedAt, noConfig, watcher)];
      nextId := nextId + 1;
      insertions := insertions + 1;
    }

    method WatcherFires(w: nat)
      modifies this
      ensures Value() == Fire(old(Value()), w)
    {
      if w in openWatchers { InvalidateKey(openWatchers[w]); }
    }

    method ClearEverything() returns (count: nat)
      requires Wf(Value())
      modifies this
      ensures Value() == ClearAll(old(Value())) && count == |old(order)|
    {
      ghost var c0 := Value();
      count := |order|;
      while order != []
        invariant Wf(Value()) && ClearAll(Value()) == ClearAll(c0)
        decreases |order|
      {
        InvalidateWf(Value(), order[0]);
        InvalidateKey(order[0]);
      }
    }
  }
}
