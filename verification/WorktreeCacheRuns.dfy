/**
Runs of the worktree cache in which lookups overlap: a miss starts a scan, other operations happen,
and the result is stored when the scan is done.
 */
module WorktreeCacheRuns {
  import opened Wrappers
  import opened WorktreeCache

  /** A scan under way. */
  datatype Flight = Flight(key: Key, startedAt: int)

  /** `uses` is the step at which a key was last stored or hit, `starts` the scans ever begun. */
  datatype Sys = Sys(cache: Cache, flights: map<nat, Flight>, uses: map<Key, nat>, step: nat, starts: set<Flight>)

  datatype Event =
    | Begin(call: nat, key: Key, now: int, later: int, configAppeared: bool)
    | End(call: nat, noConfig: bool, watch: bool)
    | Fail(call: nat)
    | PeekOnly(key: Key, now: int, configAppeared: bool)
    | Fires(watcher: nat)
    | ClearKey(key: Key)
    | ClearEvery

  const INITIAL: Sys := Sys(EMPTY, map[], map[], 0, {})

  function Lookup(ttl: int, s: Sys, k: Key, now: int, appeared: bool): Sys {
    var c := Peek(ttl, s.cache, k, now, appeared);
    if IsHit(ttl, s.cache, k, now, appeared) then s.(cache := c, uses := s.uses[k := s.step])
    else s.(cache := c)
  }

  function Apply(max: nat, ttl: int, s: Sys, e: Event): Sys
    requires Wf(s.cache)
  {
    match e
    case Begin(call, k, now, later, appeared) =>
      var t := Lookup(ttl, s, k, now, appeared);
      if call in s.flights then s
      else if IsHit(ttl, s.cache, k, now, appeared) then t
      else t.(cache := t.cache.(misses := t.cache.misses + 1),
              flights := t.flights[call := Flight(k, later)], starts := t.starts + {Flight(k, later)})
    case End(call, noConfig, watch) =>
      if call !in s.flights then s
      else
        var f := s.flights[call];
        s.(cache := Store(Evict(max, s.cache), f.key, f.startedAt, noConfig, watch),
           uses := s.uses[f.key := s.step], flights := s.flights - {call})
    case Fail(call) => s.(flights := s.flights - {call})
    case PeekOnly(k, now, appeared) => Lookup(ttl, s, k, now, appeared)
    case Fires(w) => s.(cache := Fire(s.cache, w))
    case ClearKey(k) => s.(cache := Invalidate(s.cache, k))
    case ClearEvery => s.(cache := ClearAll(s.cache))
  }

  function Next(max: nat, ttl: int, s: Sys, e: Event): Sys
    requires Wf(s.cache)
  {
    Apply(max, ttl, s, e).(step := s.step + 1)
  }

  /** Every cache a run reaches is well formed (see `RunSound`), so each step is determined. */
  ghost predicate IsRun(max: nat, ttl: int, run: seq<Sys>, events: seq<Event>) {
    && |run| == |events| + 1 && run[0] == INITIAL
    && forall i | 0 <= i < |events| :: Wf(run[i].cache) ==> run[i + 1] == Next(max, ttl, run[i], events[i])
  }

  // ----- Bound and freshness, for every interleaving -----

  lemma {:induction false} EvictMakesRoom(max: nat, c: Cache)
    requires Wf(c)
    ensures Wf(Evict(max, c)) && (max >= 1 ==> |Evict(max, c).order| < max)
    decreases |c.order|
  {
    if !(|c.order| < max || c.order == []) { EvictMakesRoom(max, EvictOldest(c)); }
  }

  lemma {:induction false} EvictOnlyRemoves(max: nat, c: Cache)
    requires Wf(c)
    ensures forall k | k in Evict(max, c).table :: k in c.table && Evict(max, c).table[k] == c.table[k]
    ensures Evict(max, c).hits == c.hits && Evict(max, c).misses == c.misses
    decreases |c.order|
  {
    if !(|c.order| < max || c.order == []) { EvictOnlyRemoves(max, EvictOldest(c)); }
  }

  lemma {:induction false} ClearAllWf(c: Cache)
    requires Wf(c)
    ensures Wf(ClearAll(c)) && ClearAll(c).order == [] && ClearAll(c).table == map[]
    decreases |c.order|
  {
    if c.order == [] {
      assert c.table.Keys == {};
    } else {
      InvalidateWf(c, c.order[0]);
      ClearAllWf(Invalidate(c, c.order[0]));
    }
  }

  /** Moving a hit key to the end keeps the same keys, each once. */
  lemma TouchWf(order: seq<Key>, k: Key)
    requires k in Elems(order) && Distinct(order)
    ensures Distinct(Remove(order, k) + [k]) && |Remove(order, k) + [k]| == |order|
    ensures Elems(Remove(order, k) + [k]) == Elems(order)
  {
    RemoveKeepsDistinct(order, k);
    var q := Remove(order, k);
    ElemsOfConcat(q, [k]);
    forall i | 0 <= i < |q| ensures q[i] != k { assert q[i] in Elems(q); }
  }

  ghost predicate Sound(max: nat, s: Sys) {
    && Wf(s.cache)
    && (max >= 1 ==> |s.cache.order| <= max)
    && (forall k | k in s.cache.table :: Flight(k, s.cache.table[k].scannedAt) in s.starts)
    && (forall call | call in s.flights :: s.flights[call] in s.starts)
  }

  lemma LookupSound(max: nat, ttl: int, s: Sys, k: Key, now: int, appeared: bool)
    requires Sound(max, s)
    ensures Sound(max, Lookup(ttl, s, k, now, appeared))
  {
    if IsHit(ttl, s.cache, k, now, appeared) { TouchWf(s.cache.order, k); } else { InvalidateWf(s.cache, k); }
  }

  lemma StoreWf(c: Cache, k: Key, at: int, noConfig: bool, watch: bool)
    requires Wf(c)
    ensures Wf(Store(c, k, at, noConfig, watch)) && |Store(c, k, at, noConfig, watch).order| <= |c.order| + 1
  {
    ElemsOfConcat(c.order, [k]);
    if k !in c.table {
      forall i | 0 <= i < |c.order| ensures c.order[i] != k { assert c.order[i] in Elems(c.order); }
    }
  }

  lemma EndSound(max: nat, ttl: int, s: Sys, e: Event)
    requires Sound(max, s) && e.End?
    ensures Sound(max, Next(max, ttl, s, e))
  {
    EvictMakesRoom(max, s.cache);
    EvictOnlyRemoves(max, s.cache);
    if e.call in s.flights {
      var f := s.flights[e.call];
      StoreWf(Evict(max, s.cache), f.key, f.startedAt, e.noConfig, e.watch);
    }
  }

  lemma NextSound(max: nat, ttl: int, s: Sys, e: Event)
    requires Sound(max, s)
    ensures Sound(max, Next(max, ttl, s, e))
  {
    match e
    case Begin(call, k, now, later, appeared) => LookupSound(max, ttl, s, k, now, appeared);
    case PeekOnly(k, now, appeared) => LookupSound(max, ttl, s, k, now, appeared);
    case End(call, noConfig, watch) => EndSound(max, ttl, s, e);
    case Fires(w) => if w in s.cache.open { InvalidateWf(s.cache, s.cache.open[w]); }
    case ClearKey(k) => InvalidateWf(s.cache, k);
    case ClearEvery => ClearAllWf(s.cache);
    case Fail(_) =>
  }

  lemma {:induction false} RunSound(max: nat, ttl: int, run: seq<Sys>, events: seq<Event>, n: nat)
    requires IsRun(max, ttl, run, events) && n < |run|
    ensures Sound(max, run[n])
  {
    if n > 0 {
      RunSound(max, ttl, run, events, n - 1);
      NextSound(max, ttl, run[n - 1], events[n - 1]);
    }
  }

  /** With room for at least one entry, no interleaving makes the cache exceed its bound. */
  lemma CacheNeverExceedsBound(max: nat, ttl: int, run: seq<Sys>, events: seq<Event>, n: nat)
    requires max >= 1 && IsRun(max, ttl, run, events) && n < |run|
    ensures |run[n].cache.order| <= max && Elems(run[n].cache.order) == run[n].cache.table.Keys
  {
    RunSound(max, ttl, run, events, n);
  }

  lemma {:induction false} StartsComeFromMisses(
      max: nat, ttl: int, run: seq<Sys>, events: seq<Event>, n: nat, f: Flight)
    returns (i: nat)
    requires IsRun(max, ttl, run, events) && n < |run| && f in run[n].starts
    ensures i < n && events[i].Begin? && events[i].key == f.key && events[i].later == f.startedAt
    ensures !IsHit(ttl, run[i].cache, f.key, events[i].now, events[i].configAppeared)
  {
    RunSound(max, ttl, run, events, n - 1);
    if f in run[n - 1].starts {
      i := StartsComeFromMisses(max, ttl, run, events, n - 1, f);
    } else {
      i := n - 1;
    }
  }

  /** Every hit is served from a scan that a miss began less than the lifetime earlier. */
  lemma HitIsFresh(max: nat, ttl: int, run: seq<Sys>, events: seq<Event>, n: nat) returns (i: nat)
    requires IsRun(max, ttl, run, events) && n < |events| && (events[n].Begin? || events[n].PeekOnly?)
    requires IsHit(ttl, run[n].cache, events[n].key, events[n].now, events[n].configAppeared)
    ensures i < n && events[i].Begin? && events[i].key == events[n].key && events[n].now - events[i].later < ttl
  {
    RunSound(max, ttl, run, events, n);
    var k := events[n].key;
    i := StartsComeFromMisses(max, ttl, run, events, n, Flight(k, run[n].cache.table[k].scannedAt));
  }

  // ----- Counters, for every interleaving -----

  /** What an event adds to hits plus misses: one per lookup, and one per peek that hits. */
  function Looked(ttl: int, s: Sys, e: Event): nat {
    match e
    case Begin(call, _, _, _, _) => if call in s.flights then 0 else 1
    case PeekOnly(k, now, appeared) => if IsHit(ttl, s.cache, k, now, appeared) then 1 else 0
    case _ => 0
  }

  lemma EachLookupCountsOnce(max: nat, ttl: int, s: Sys, e: Event)
    requires Wf(s.cache)
    ensures Next(max, ttl, s, e).cache.hits + Next(max, ttl, s, e).cache.misses ==
            s.cache.hits + s.cache.misses + Looked(ttl, s, e)
  {
    match e
    case End(_, _, _) => EvictOnlyRemoves(max, s.cache);
    case ClearEvery => ClearAllKeepsCounts(s.cache);
    case _ =>
  }

  function LookedBefore(ttl: int, run: seq<Sys>, events: seq<Event>, n: nat): nat
    requires n <= |events| <= |run|
  {
    if n == 0 then 0 else LookedBefore(ttl, run, events, n - 1) + Looked(ttl, run[n - 1], events[n - 1])
  }

  /** The stored scan lands on a key that another one has filled meanwhile. */
  ghost predicate Overwrites(max: nat, s: Sys, e: Event) {
    Wf(s.cache) && e.End? && e.call in s.flights && s.flights[e.call].key in Evict(max, s.cache).table
  }

  ghost function OverwritesBefore(max: nat, run: seq<Sys>, events: seq<Event>, n: nat): nat
    requires n <= |events| <= |run|
  {
    if n == 0 then 0
    else OverwritesBefore(max, run, events, n - 1) + (if Overwrites(max, run[n - 1], events[n - 1]) then 1 else 0)
  }

  /** Insertions that neither are live nor were invalidated. */
  function Gap(c: Cache): int { c.insertions - |c.order| - c.invalidations }

  lemma {:induction false} EvictKeepsGap(max: nat, c: Cache)
    requires Wf(c)
    ensures Gap(Evict(max, c)) == Gap(c)
    ensures c.evictions <= c.invalidations ==> Evict(max, c).evictions <= Evict(max, c).invalidations
    decreases |c.order|
  {
    if !(|c.order| < max || c.order == []) {
      assert c.order[0] in Elems(c.order);
      EvictKeepsGap(max, EvictOldest(c));
    }
  }

  lemma {:induction false} ClearAllKeepsGap(c: Cache)
    requires Wf(c)
    ensures Gap(ClearAll(c)) == Gap(c)
    ensures c.evictions <= c.invalidations ==> ClearAll(c).evictions <= ClearAll(c).invalidations
    decreases |c.order|
  {
    if c.order != [] {
      assert c.order[0] in Elems(c.order);
      InvalidateWf(c, c.order[0]);
      ClearAllKeepsGap(Invalidate(c, c.order[0]));
    }
  }

  lemma LookupKeepsGap(ttl: int, s: Sys, k: Key, now: int, appeared: bool)
    requires Wf(s.cache)
    ensures Gap(Lookup(ttl, s, k, now, appeared).cache) == Gap(s.cache)
    ensures s.cache.evictions <= s.cache.invalidations ==>
      Lookup(ttl, s, k, now, appeared).cache.evictions <= Lookup(ttl, s, k, now, appeared).cache.invalidations
  {
    if IsHit(ttl, s.cache, k, now, appeared) { TouchWf(s.cache.order, k); } else { InvalidateWf(s.cache, k); }
  }

  lemma StepGap(max: nat, ttl: int, s: Sys, e: Event)
    requires Wf(s.cache)
    ensures Gap(Next(max, ttl, s, e).cache) == Gap(s.cache) + (if Overwrites(max, s, e) then 1 else 0)
    ensures s.cache.evictions <= s.cache.invalidations ==>
      Next(max, ttl, s, e).cache.evictions <= Next(max, ttl, s, e).cache.invalidations
  {
    match e
    case Begin(call, k, now, later, appeared) => LookupKeepsGap(ttl, s, k, now, appeared);
    case PeekOnly(k, now, appeared) => LookupKeepsGap(ttl, s, k, now, appeared);
    case End(_, _, _) => EvictKeepsGap(max, s.cache);
    case Fires(w) => if w in s.cache.open { InvalidateWf(s.cache, s.cache.open[w]); }
    case ClearKey(k) => InvalidateWf(s.cache, k);
    case ClearEvery => ClearAllKeepsGap(s.cache);
    case Fail(_) =>
  }

  /**
  Over every run: hits plus misses are the lookups made, insertions are the live entries plus the
  invalidations plus the scans stored over a present key, and evictions are among the invalidations.
   */
  lemma {:induction false} CountersBalance(max: nat, ttl: int, run: seq<Sys>, events: seq<Event>, n: nat)
    requires IsRun(max, ttl, run, events) && n < |run|
    ensures run[n].cache.hits + run[n].cache.misses == LookedBefore(ttl, run, events, n)
    ensures Gap(run[n].cache) == OverwritesBefore(max, run, events, n)
    ensures run[n].cache.evictions <= run[n].cache.invalidations
  {
    if n > 0 {
      CountersBalance(max, ttl, run, events, n - 1);
      RunSound(max, ttl, run, events, n - 1);
      StepGap(max, ttl, run[n - 1], events[n - 1]);
      EachLookupCountsOnce(max, ttl, run[n - 1], events[n - 1]);
    }
  }

  lemma {:induction false} NoOverwritesIff(max: nat, run: seq<Sys>, events: seq<Event>, n: nat)
    requires n <= |events| <= |run|
    ensures OverwritesBefore(max, run, events, n) == 0 <==> forall i | 0 <= i < n :: !Overwrites(max, run[i], events[i])
  {
    if n > 0 { NoOverwritesIff(max, run, events, n - 1); }
  }

  /** The accounts are right exactly as long as no scan was stored over a key that was present. */
  lemma AccountedIff(max: nat, ttl: int, run: seq<Sys>, events: seq<Event>, n: nat)
    requires IsRun(max, ttl, run, events) && n < |run|
    ensures Accounted(run[n].cache) <==> forall i | 0 <= i < n :: !Overwrites(max, run[i], events[i])
  {
    CountersBalance(max, ttl, run, events, n);
    NoOverwritesIff(max, run, events, n);
  }

  // ----- Watchers, for every interleaving -----

  /** Every entry's watcher is open and invalidates that entry; numbers of open watchers were given out. */
  ghost predicate WatchSound(c: Cache) {
    && (forall k | k in c.table && c.table[k].watcher.Some? ::
          c.table[k].watcher.value in c.open && c.open[c.table[k].watcher.value] == k)
    && (forall w | w in c.open :: w < c.nextId)
  }

  /** The open watchers that belong to no live entry. */
  function Orphans(c: Cache): set<nat> {
    set w | w in c.open && !(c.open[w] in c.table && c.table[c.open[w]].watcher == Some(w))
  }

  lemma OwnedIffNoOrphans(c: Cache)
    requires WatchSound(c)
    ensures WatchersOwned(c) <==> Orphans(c) == {}
  {
    if Orphans(c) == {} {
      forall w | w in c.open ensures c.open[w] in c.table && c.table[c.open[w]].watcher == Some(w) {
        assert w !in Orphans(c);
      }
    }
  }

  lemma InvalidateOrphans(c: Cache, k: Key)
    requires WatchSound(c)
    ensures WatchSound(Invalidate(c, k)) && Orphans(Invalidate(c, k)) == Orphans(c)
  {
  }

  lemma {:induction false} EvictOrphans(max: nat, c: Cache)
    requires Wf(c) && WatchSound(c)
    ensures WatchSound(Evict(max, c)) && Orphans(Evict(max, c)) == Orphans(c)
    decreases |c.order|
  {
    if !(|c.order| < max || c.order == []) {
      InvalidateOrphans(c.(evictions := c.evictions + 1), c.order[0]);
      EvictOrphans(max, EvictOldest(c));
    }
  }

  lemma {:induction false} ClearAllOrphans(c: Cache)
    requires Wf(c) && WatchSound(c)
    ensures WatchSound(ClearAll(c)) && Orphans(ClearAll(c)) == Orphans(c)
    decreases |c.order|
  {
    if c.order != [] {
      InvalidateWf(c, c.order[0]);
      InvalidateOrphans(c, c.order[0]);
      ClearAllOrphans(Invalidate(c, c.order[0]));
    }
  }

  /** The watcher that storing under `k` leaves behind. */
  function LeftBehind(c: Cache, k: Key): set<nat> {
    if k in c.table && c.table[k].watcher.Some? then {c.table[k].watcher.value} else {}
  }

  lemma StoreOrphans(c: Cache, k: Key, t: int, noConfig: bool, watch: bool)
    requires WatchSound(c)
    ensures WatchSound(Store(c, k, t, noConfig, watch))
    ensures Orphans(Store(c, k, t, noConfig, watch)) == Orphans(c) + LeftBehind(c, k)
  {
    var d := Store(c, k, t, noConfig, watch);
    forall w ensures w in Orphans(d) <==> w in Orphans(c) || w in LeftBehind(c, k) {
      if w in c.open { assert w < c.nextId; }
    }
  }

  lemma LookupOrphans(ttl: int, s: Sys, k: Key, now: int, appeared: bool)
    requires WatchSound(s.cache)
    ensures WatchSound(Lookup(ttl, s, k, now, appeared).cache)
    ensures Orphans(Lookup(ttl, s, k, now, appeared).cache) == Orphans(s.cache)
  {
    if !IsHit(ttl, s.cache, k, now, appeared) { InvalidateOrphans(s.cache, k); }
  }

  /** The stored scan lands on an entry that has a watcher. */
  ghost predicate Leaks(max: nat, s: Sys, e: Event) {
    Overwrites(max, s, e) && Evict(max, s.cache).table[s.flights[e.call].key].watcher.Some?
  }

  lemma EndOrphans(max: nat, ttl: int, s: Sys, e: Event)
    requires Wf(s.cache) && WatchSound(s.cache) && e.End?
    ensures WatchSound(Next(max, ttl, s, e).cache) && Orphans(s.cache) <= Orphans(Next(max, ttl, s, e).cache)
    ensures Orphans(Next(max, ttl, s, e).cache) == {} <==> Orphans(s.cache) == {} && !Leaks(max, s, e)
  {
    if e.call in s.flights {
      var c, f := Evict(max, s.cache), s.flights[e.call];
      EvictOrphans(max, s.cache);
      StoreOrphans(c, f.key, f.startedAt, e.noConfig, e.watch);
      assert Leaks(max, s, e) <==> LeftBehind(c, f.key) != {};
    }
  }

  lemma StepOrphans(max: nat, ttl: int, s: Sys, e: Event)
    requires Wf(s.cache) && WatchSound(s.cache)
    ensures WatchSound(Next(max, ttl, s, e).cache)
    ensures Orphans(Next(max, ttl, s, e).cache) == {} <==> Orphans(s.cache) == {} && !Leaks(max, s, e)
  {
    match e
    case Begin(call, k, now, later, appeared) => LookupOrphans(ttl, s, k, now, appeared);
    case PeekOnly(k, now, appeared) => LookupOrphans(ttl, s, k, now, appeared);
    case End(_, _, _) => EndOrphans(max, ttl, s, e);
    case Fires(w) => if w in s.cache.open { InvalidateOrphans(s.cache, s.cache.open[w]); }
    case ClearKey(k) => InvalidateOrphans(s.cache, k);
    case ClearEvery => ClearAllOrphans(s.cache);
    case Fail(_) =>
  }

  lemma {:induction false} OrphansOverRun(max: nat, ttl: int, run: seq<Sys>, events: seq<Event>, n: nat)
    requires IsRun(max, ttl, run, events) && n < |run|
    ensures WatchSound(run[n].cache)
    ensures Orphans(run[n].cache) == {} <==> forall i | 0 <= i < n :: !Leaks(max, run[i], events[i])
  {
    if n > 0 {
      OrphansOverRun(max, ttl, run, events, n - 1);
      RunSound(max, ttl, run, events, n - 1);
      StepOrphans(max, ttl, run[n - 1], events[n - 1]);
    }
  }

  /** Each open watcher belongs to exactly one entry exactly as long as no scan was stored over a watched entry. */
  lemma WatchersOwnedIff(max: nat, ttl: int, run: seq<Sys>, events: seq<Event>, n: nat)
    requires IsRun(max, ttl, run, events) && n < |run|
    ensures WatchersOwned(run[n].cache) <==> forall i | 0 <= i < n :: !Leaks(max, run[i], events[i])
  {
    OrphansOverRun(max, ttl, run, events, n);
    OwnedIffNoOrphans(run[n].cache);
  }

  // ----- Watchers, counters and order, when misses on one key do not overlap -----

  /** Every open watcher belongs to exactly one live entry, and every entry's watcher is open. */
  ghost predicate WatchersOwned(c: Cache) {
    && (forall k | k in c.table && c.table[k].watcher.Some? ::
          c.table[k].watcher.value in c.open && c.open[c.table[k].watcher.value] == k)
    && (forall w | w in c.open :: w < c.nextId && c.open[w] in c.table && c.table[c.open[w]].watcher == Some(w))
  }

  predicate Accounted(c: Cache) {
    c.insertions == |c.order| + c.invalidations && c.evictions <= c.invalidations
  }

  predicate Ordered(order: seq<Key>, uses: map<Key, nat>, step: nat) {
    && (forall i | 0 <= i < |order| :: order[i] in uses && uses[order[i]] < step)
    && (forall i, j | 0 <= i < j < |order| :: order[i] in uses && order[j] in uses && uses[order[i]] < uses[order[j]])
  }

  lemma PrependOrdered(k: Key, rest: seq<Key>, uses: map<Key, nat>, step: nat)
    requires Ordered(rest, uses, step) && k in uses && uses[k] < step
    requires forall j | 0 <= j < |rest| :: rest[j] in uses && uses[k] < uses[rest[j]]
    ensures Ordered([k] + rest, uses, step)
  {
  }

  lemma {:induction false} RemoveKeepsOrdered(order: seq<Key>, k: Key, uses: map<Key, nat>, step: nat)
    requires Ordered(order, uses, step)
    ensures Ordered(Remove(order, k), uses, step)
  {
    if order != [] {
      var tail := order[1..];
      assert forall i | 0 <= i < |tail| :: tail[i] == order[i + 1];
      RemoveKeepsOrdered(tail, k, uses, step);
      var rest := Remove(tail, k);
      if order[0] != k {
        forall j | 0 <= j < |rest| ensures rest[j] in uses && uses[order[0]] < uses[rest[j]] {
          assert rest[j] in Elems(rest);
          var i :| 0 <= i < |tail| && tail[i] == rest[j];
          assert order[i + 1] == rest[j];
        }
        PrependOrdered(order[0], rest, uses, step);
      }
    }
  }

  ghost predicate Tidy(c: Cache, uses: map<Key, nat>, step: nat) {
    Wf(c) && WatchersOwned(c) && Accounted(c) && Ordered(c.order, uses, step)
  }

  lemma InvalidateTidy(c: Cache, k: Key, uses: map<Key, nat>, step: nat)
    requires Tidy(c, uses, step)
    ensures Tidy(Invalidate(c, k), uses, step)
  {
    InvalidateWf(c, k);
    RemoveKeepsOrdered(c.order, k, uses, step);
  }

  /** The first entry in order is the least recently used one: the victim of an eviction. */
  lemma VictimIsLeastRecentlyUsed(c: Cache, uses: map<Key, nat>, step: nat, k: Key)
    requires Tidy(c, uses, step) && c.order != [] && k in c.table && k != c.order[0]
    ensures c.order[0] in uses && k in uses && uses[c.order[0]] < uses[k]
  {
    assert k in Elems(c.order);
    var i :| 0 <= i < |c.order| && c.order[i] == k;
  }

  lemma {:induction false} EvictTidy(max: nat, c: Cache, uses: map<Key, nat>, step: nat)
    requires Tidy(c, uses, step)
    ensures Tidy(Evict(max, c), uses, step)
    decreases |c.order|
  {
    if !(|c.order| < max || c.order == []) {
      EvictStepTidy(c, uses, step);
      EvictTidy(max, EvictOldest(c), uses, step);
    }
  }

  lemma EvictStepTidy(c: Cache, uses: map<Key, nat>, step: nat)
    requires Tidy(c, uses, step) && c.order != []
    ensures Tidy(EvictOldest(c), uses, step)
  {
    InvalidateTidy(c, c.order[0], uses, step);
  }

  lemma {:induction false} ClearAllTidy(c: Cache, uses: map<Key, nat>, step: nat)
    requires Tidy(c, uses, step)
    ensures Tidy(ClearAll(c), uses, step)
    decreases |c.order|
  {
    if c.order != [] {
      InvalidateWf(c, c.order[0]);
      InvalidateTidy(c, c.order[0], uses, step);
      ClearAllTidy(Invalidate(c, c.order[0]), uses, step);
    }
  }

  lemma StoreTidy(c: Cache, k: Key, t: int, noConfig: bool, watch: bool, uses: map<Key, nat>, step: nat)
    requires Tidy(c, uses, step) && k !in c.table
    ensures Tidy(Store(c, k, t, noConfig, watch), uses[k := step], step + 1)
  {
    StoreWf(c, k, t, noConfig, watch);
    StoreOwned(c, k, t, noConfig, watch);
    forall i | 0 <= i < |c.order| ensures c.order[i] != k { assert c.order[i] in Elems(c.order); }
    AppendOrdered(c.order, k, uses, step);
  }

  lemma StoreOwned(c: Cache, k: Key, t: int, noConfig: bool, watch: bool)
    requires WatchersOwned(c) && k !in c.table
    ensures WatchersOwned(Store(c, k, t, noConfig, watch))
  {
  }

  lemma AppendOrdered(order: seq<Key>, k: Key, uses: map<Key, nat>, step: nat)
    requires Ordered(order, uses, step) && forall i | 0 <= i < |order| :: order[i] != k
    ensures Ordered(order + [k], uses[k := step], step + 1)
  {
  }

  lemma TouchTidy(c: Cache, k: Key, uses: map<Key, nat>, step: nat)
    requires Tidy(c, uses, step) && k in c.table
    ensures Tidy(c.(order := Remove(c.order, k) + [k], hits := c.hits + 1), uses[k := step], step + 1)
  {
    TouchWf(c.order, k);
    RemoveKeepsOrdered(c.order, k, uses, step);
    var q := Remove(c.order, k);
    forall i | 0 <= i < |q| ensures q[i] != k { assert q[i] in Elems(q); }
    AppendOrdered(q, k, uses, step);
  }

  /** No two scans under way are for the same key. */
  ghost predicate NoOverlap(s: Sys) {
    forall a, b | a in s.flights && b in s.flights && a != b :: s.flights[a].key != s.flights[b].key
  }

  ghost predicate Good(s: Sys) {
    && Tidy(s.cache, s.uses, s.step)
    && (forall call | call in s.flights :: s.flights[call].key !in s.cache.table)
  }

  lemma LaterTidy(c: Cache, uses: map<Key, nat>, step: nat)
    requires Tidy(c, uses, step)
    ensures Tidy(c, uses, step + 1)
  {
  }

  lemma LookupGood(ttl: int, s: Sys, k: Key, now: int, appeared: bool)
    requires Good(s)
    ensures Good(Lookup(ttl, s, k, now, appeared).(step := s.step + 1))
    ensures !IsHit(ttl, s.cache, k, now, appeared) ==> k !in Lookup(ttl, s, k, now, appeared).cache.table
  {
    if IsHit(ttl, s.cache, k, now, appeared) {
      TouchTidy(s.cache, k, s.uses, s.step);
    } else {
      InvalidateTidy(s.cache, k, s.uses, s.step);
      LaterTidy(Invalidate(s.cache, k), s.uses, s.step);
    }
  }

  lemma {:induction false} ClearAllKeepsCounts(c: Cache)
    requires Wf(c)
    ensures ClearAll(c).hits == c.hits && ClearAll(c).misses == c.misses
    decreases |c.order|
  {
    if c.order != [] {
      InvalidateWf(c, c.order[0]);
      ClearAllKeepsCounts(Invalidate(c, c.order[0]));
    }
  }

  lemma EndGood(max: nat, ttl: int, s: Sys, e: Event)
    requires Good(s) && NoOverlap(s) && e.End?
    ensures Good(Next(max, ttl, s, e))
  {
    if e.call in s.flights {
      var f := s.flights[e.call];
      EvictTidy(max, s.cache, s.uses, s.step);
      EvictMakesRoom(max, s.cache);
      EvictOnlyRemoves(max, s.cache);
      StoreTidy(Evict(max, s.cache), f.key, f.startedAt, e.noConfig, e.watch, s.uses, s.step);
    } else {
      LaterTidy(s.cache, s.uses, s.step);
    }
  }

  lemma RemovalGood(s: Sys, c: Cache)
    requires Good(s) && Tidy(c, s.uses, s.step) && c.table.Keys <= s.cache.table.Keys
    requires c.hits == s.cache.hits && c.misses == s.cache.misses
    ensures Good(s.(cache := c, step := s.step + 1))
  {
    LaterTidy(c, s.uses, s.step);
  }

  /** Firing watchers and clearing only remove entries. */
  lemma ClearingGood(max: nat, ttl: int, s: Sys, e: Event)
    requires Good(s) && (e.Fires? || e.ClearKey? || e.ClearEvery?)
    ensures Good(Next(max, ttl, s, e))
  {
    var c :=
      if e.Fires? then Fire(s.cache, e.watcher)
      else if e.ClearKey? then Invalidate(s.cache, e.key)
      else ClearAll(s.cache);
    assert Next(max, ttl, s, e) == s.(cache := c, step := s.step + 1);
    if e.Fires? {
      if e.watcher in s.cache.open { InvalidateTidy(s.cache, s.cache.open[e.watcher], s.uses, s.step); }
    } else if e.ClearKey? {
      InvalidateTidy(s.cache, e.key, s.uses, s.step);
    } else {
      ClearAllTidy(s.cache, s.uses, s.step);
      ClearAllWf(s.cache);
      ClearAllKeepsCounts(s.cache);
    }
    RemovalGood(s, c);
  }

  lemma BeginGood(max: nat, ttl: int, s: Sys, e: Event)
    requires Good(s) && e.Begin?
    ensures Good(Next(max, ttl, s, e))
  {
    if e.call in s.flights {
      LaterTidy(s.cache, s.uses, s.step);
    } else {
      LookupGood(ttl, s, e.key, e.now, e.configAppeared);
    }
  }

  lemma NextGood(max: nat, ttl: int, s: Sys, e: Event)
    requires Good(s) && NoOverlap(s)
    ensures Good(Next(max, ttl, s, e))
  {
    match e
    case Begin(_, _, _, _, _) => BeginGood(max, ttl, s, e);
    case PeekOnly(k, now, appeared) => LookupGood(ttl, s, k, now, appeared);
    case End(_, _, _) => EndGood(max, ttl, s, e);
    case Fail(_) => LaterTidy(s.cache, s.uses, s.step);
    case _ => ClearingGood(max, ttl, s, e);
  }

  /**
  While misses on one key never overlap: entries stand in order of last use, every open watcher belongs
  to exactly one entry, insertions are the live entries plus the invalidations, and evictions are among
  the invalidations.
   */
  lemma {:induction false} OrderlyWithoutOverlap(max: nat, ttl: int, run: seq<Sys>, events: seq<Event>, n: nat)
    requires IsRun(max, ttl, run, events) && n < |run|
    requires forall i | 0 <= i < n :: NoOverlap(run[i])
    ensures WatchersOwned(run[n].cache) && Accounted(run[n].cache)
    ensures Ordered(run[n].cache.order, run[n].uses, run[n].step)
    ensures Good(run[n])
  {
    if n > 0 {
      OrderlyWithoutOverlap(max, ttl, run, events, n - 1);
      NextGood(max, ttl, run[n - 1], events[n - 1]);
    }
  }

  /**
  Storing over a key that is present is what breaks it: from a tidy cache the watchers stay owned exactly
  if the key is absent or had no watcher, and the count of insertions stays right exactly if it is absent.
   */
  lemma StoreIsTidyIff(c: Cache, k: Key, t: int, noConfig: bool, watch: bool, uses: map<Key, nat>, step: nat)
    requires Tidy(c, uses, step)
    ensures WatchersOwned(Store(c, k, t, noConfig, watch)) <==> k !in c.table || c.table[k].watcher.None?
    ensures Accounted(Store(c, k, t, noConfig, watch)) <==> k !in c.table
  {
    var d := Store(c, k, t, noConfig, watch);
    if k in c.table && c.table[k].watcher.Some? {
      var w := c.table[k].watcher.value;
      assert w in d.open && d.table[k].watcher != Some(w);
    } else if k !in c.table {
      StoreTidy(c, k, t, noConfig, watch, uses, step);
    }
  }

  lemma FirstScanIsStored(max: nat, ttl: int, s: Sys, a: nat) returns (s1: Sys)
    requires Good(s) && a in s.flights && |s.cache.order| + 1 < max
    ensures s1 == Next(max, ttl, s, End(a, false, true)) && s1.flights == s.flights - {a}
    ensures Tidy(s1.cache, s1.uses, s1.step) && |s1.cache.order| < max
    ensures var k := s.flights[a].key; k in s1.cache.table && s1.cache.table[k].watcher.Some?
  {
    var f := s.flights[a];
    StoreTidy(s.cache, f.key, f.startedAt, false, true, s.uses, s.step);
    s1 := Next(max, ttl, s, End(a, false, true));
    assert s1.cache == Store(s.cache, f.key, f.startedAt, false, true);
  }

  lemma SecondScanLeaks(max: nat, ttl: int, s: Sys, b: nat)
    requires Tidy(s.cache, s.uses, s.step) && |s.cache.order| < max && b in s.flights
    requires var k := s.flights[b].key; k in s.cache.table && s.cache.table[k].watcher.Some?
    ensures var s' := Next(max, ttl, s, End(b, false, true)); !WatchersOwned(s'.cache) && !Accounted(s'.cache)
  {
    var f := s.flights[b];
    StoreIsTidyIff(s.cache, f.key, f.startedAt, false, true, s.uses, s.step);
  }

  /** Two scans of one key under way and both stored: the first watcher stays open without an entry. */
  lemma OverlapLeaksWatcher(max: nat, ttl: int, s: Sys, a: nat, b: nat)
    requires Good(s) && a != b && a in s.flights && b in s.flights && s.flights[a].key == s.flights[b].key
    requires |s.cache.order| + 1 < max
    ensures var s1 := Next(max, ttl, s, End(a, false, true));
            && Wf(s1.cache)
            && var s2 := Next(max, ttl, s1, End(b, false, true)); !WatchersOwned(s2.cache) && !Accounted(s2.cache)
  {
    var s1 := FirstScanIsStored(max, ttl, s, a);
    SecondScanLeaks(max, ttl, s1, b);
  }

  /** Overlap is not prevented: a lookup of a key whose scan `a` is under way starts a second scan of it. */
  lemma LookupDuringScanOverlaps(max: nat, ttl: int, s: Sys, a: nat, b: nat, now: int, later: int)
    requires Good(s) && NoOverlap(s) && a in s.flights && b !in s.flights
    ensures var s' := Next(max, ttl, s, Begin(b, s.flights[a].key, now, later, false));
            Good(s') && !NoOverlap(s') && s'.flights == s.flights[b := Flight(s.flights[a].key, later)]
  {
    NextGood(max, ttl, s, Begin(b, s.flights[a].key, now, later, false));
    var s' := Next(max, ttl, s, Begin(b, s.flights[a].key, now, later, false));
    assert a in s'.flights && b in s'.flights && s'.flights[a].key == s'.flights[b].key;
  }

  lemma OverlapIsReachable(max: nat, ttl: int, k: Key, now: int) returns (s1: Sys, s2: Sys)
    ensures s1 == Next(max, ttl, INITIAL, Begin(0, k, now, now, false)) && Good(s1)
    ensures s2 == Next(max, ttl, s1, Begin(1, k, now, now, false)) && Good(s2) && s2.cache.order == []
    ensures s2.flights == map[0 := Flight(k, now), 1 := Flight(k, now)]
  {
    BeginGood(max, ttl, INITIAL, Begin(0, k, now, now, false));
    s1 := Next(max, ttl, INITIAL, Begin(0, k, now, now, false));
    assert s1.flights == map[0 := Flight(k, now)];
    BeginGood(max, ttl, s1, Begin(1, k, now, now, false));
    s2 := Next(max, ttl, s1, Begin(1, k, now, now, false));
  }

  /** From an empty cache: two lookups of one key whose scans overlap leave an open watcher without an entry. */
  lemma LeakIsReachable(max: nat, ttl: int, k: Key, now: int) returns (run: seq<Sys>, events: seq<Event>)
    requires max >= 2
    ensures IsRun(max, ttl, run, events)
    ensures events ==
            [Begin(0, k, now, now, false), Begin(1, k, now, now, false), End(0, false, true), End(1, false, true)]
    ensures !WatchersOwned(run[4].cache) && !Accounted(run[4].cache)
  {
    var s1, s2 := OverlapIsReachable(max, ttl, k, now);
    var s3 := FirstScanIsStored(max, ttl, s2, 0);
    SecondScanLeaks(max, ttl, s3, 1);
    events := [Begin(0, k, now, now, false), Begin(1, k, now, now, false), End(0, false, true), End(1, false, true)];
    run := FourSteps(max, ttl, events, s1, s2, s3);
  }

  lemma FourSteps(max: nat, ttl: int, events: seq<Event>, s1: Sys, s2: Sys, s3: Sys) returns (run: seq<Sys>)
    requires |events| == 4 && Wf(s1.cache) && Wf(s2.cache) && Wf(s3.cache) && s1 == Next(max, ttl, INITIAL, events[0])
    requires s2 == Next(max, ttl, s1, events[1]) && s3 == Next(max, ttl, s2, events[2])
    ensures IsRun(max, ttl, run, events) && |run| == 5 && run[4] == Next(max, ttl, s3, events[3])
  {
    run := [INITIAL, s1, s2, s3, Next(max, ttl, s3, events[3])];
  }

  // ----- What the single operations do to the entries -----

  /** Invalidating a key removes its entry and no other, and keeps the order of the others. */
  lemma InvalidateExactly(c: Cache, k: Key, x: Key)
    requires Wf(c)
    ensures k !in Invalidate(c, k).table && k !in Elems(Invalidate(c, k).order)
    ensures x != k ==> (x in Invalidate(c, k).table <==> x in c.table)
    ensures x != k && x in c.table ==> Invalidate(c, k).table[x] == c.table[x]
  {
    InvalidateWf(c, k);
  }

  /** A watcher that fires removes the entry it watches, so that the next lookup of that key scans again. */
  lemma FiredKeyIsScannedAgain(
      max: nat, ttl: int, s: Sys, watcher: nat, call: nat, now: int, later: int, appeared: bool)
    requires Wf(s.cache) && watcher in s.cache.open && call !in s.flights
    ensures var k := s.cache.open[watcher];
            var s1 := Next(max, ttl, s, Fires(watcher));
            && k !in s1.cache.table && Wf(s1.cache)
            && var s2 := Next(max, ttl, s1, Begin(call, k, now, later, appeared));
               && s2.cache.misses == s.cache.misses + 1
               && call in s2.flights && s2.flights[call] == Flight(k, later)
    ensures forall x | x in s.cache.table && x != s.cache.open[watcher] ::
              var s1 := Next(max, ttl, s, Fires(watcher)); x in s1.cache.table && s1.cache.table[x] == s.cache.table[x]
  {
    InvalidateWf(s.cache, s.cache.open[watcher]);
  }

  /** A finished scan is found by the next lookup within the lifetime, unless a config has appeared meanwhile. */
  lemma StoredScanIsHit(max: nat, ttl: int, s: Sys, call: nat, noConfig: bool, watch: bool, now: int, appeared: bool)
    requires Wf(s.cache) && call in s.flights
    ensures var f := s.flights[call];
            var s1 := Next(max, ttl, s, End(call, noConfig, watch));
            && f.key in s1.cache.table && call !in s1.flights
            && (IsHit(ttl, s1.cache, f.key, now, appeared) <==> now - f.startedAt < ttl && !(noConfig && appeared))
  {
  }
}
