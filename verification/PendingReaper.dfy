/**
One pass of the reaper over sibling directories left by interrupted acquisitions: at most 32
candidates per pass, starting where the previous pass stopped.
 */
module PendingReaper {
  import opened Arithmetic

  const PENDING_LOCK_REAP_LIMIT: nat := 32

  /** An entry of a pending directory; `ownerPid` is set when its name is an owner marker. */
  datatype Entry = Entry(hasOwner: bool, ownerPid: nat, isFile: bool, mtime: int)

  /** `pidSafe` is false when the digits in the name exceed the safe integers; `readable` when stat and readdir work. */
  datatype PendingDir = PendingDir(pidSafe: bool, pid: nat, readable: bool, mtime: int, entries: seq<Entry>)

  predicate WellFormed(d: PendingDir) {
    && d.pidSafe && d.pid > 0 && d.readable
    && (|| d.entries == []
        || (|d.entries| == 1 && d.entries[0].hasOwner && d.entries[0].ownerPid == d.pid && d.entries[0].isFile))
  }

  function Latest(d: PendingDir): int {
    if |d.entries| == 1 && d.entries[0].mtime > d.mtime then d.entries[0].mtime else d.mtime
  }

  /** Old enough, of the expected shape, and its process is reported gone. */
  predicate Abandoned(d: PendingDir, now: int, staleMs: nat, alive: nat -> bool) {
    WellFormed(d) && now - Latest(d) >= staleMs && !alive(d.pid)
  }

  function Start(n: nat, cursor: nat): nat { if n == 0 then 0 else cursor % n }

  /** The candidates a pass examines: the list rotated to the cursor, cut to the limit. */
  function Batch(names: seq<string>, cursor: nat): (b: seq<string>)
    ensures |b| == if |names| < PENDING_LOCK_REAP_LIMIT then |names| else PENDING_LOCK_REAP_LIMIT
  {
    var start := Start(|names|, cursor);
    var rotated := names[start..] + names[..start];
    if |rotated| < PENDING_LOCK_REAP_LIMIT then rotated else rotated[..PENDING_LOCK_REAP_LIMIT]
  }

  function NextCursor(names: seq<string>, cursor: nat): nat {
    if names == [] then 0 else (Start(|names|, cursor) + |Batch(names, cursor)|) % |names|
  }

  /** The tests on one candidate in their order. */
  method LooksAbandoned(d: PendingDir, now: int, staleMs: nat, alive: nat -> bool) returns (yes: bool)
    ensures yes == Abandoned(d, now, staleMs, alive)
  {
    if !d.pidSafe || d.pid <= 0 { return false; }
    if !d.readable { return false; }
    var latest := d.mtime;
    if |d.entries| == 1 {
      var marker := d.entries[0];
      if !marker.hasOwner || marker.ownerPid != d.pid { return false; }
      if !marker.isFile { return false; }
      if marker.mtime > latest { latest := marker.mtime; }
    } else if |d.entries| != 0 {
      return false;
    }
    if now - latest < staleMs { return false; }
    if alive(d.pid) { return false; }
    return true;
  }

  /** Only a directory of a dead process whose own time and that of its only marker are old is abandoned. */
  lemma AbandonedMeans(d: PendingDir, now: int, staleMs: nat, alive: nat -> bool)
    ensures Abandoned(d, now, staleMs, alive) <==>
            && !alive(d.pid) && d.pid > 0 && d.pidSafe && d.readable && |d.entries| <= 1
            && now - d.mtime >= staleMs
            && forall e | e in d.entries :: e.hasOwner && e.ownerPid == d.pid && e.isFile && now - e.mtime >= staleMs
  {
    if |d.entries| == 1 {
      assert d.entries[0] in d.entries;
      assert forall e | e in d.entries :: e == d.entries[0];
    }
  }

  class Reaper {
    var cursor: nat
    var dirs: map<string, PendingDir>

    constructor ()
      ensures cursor == 0 && dirs == map[]
    {
      cursor := 0;
      dirs := map[];
    }

    /** `names` is the sorted listing of the candidates; a failed listing is `listed == false`. */
    method Reap(listed: bool, names: seq<string>, now: int, staleMs: nat, alive: nat -> bool)
      modifies this
      ensures !listed ==> dirs == old(dirs) && cursor == old(cursor)
      ensures listed ==> cursor == NextCursor(names, old(cursor))
      ensures dirs.Keys <= old(dirs).Keys && forall n | n in dirs :: dirs[n] == old(dirs)[n]
      ensures forall n | n in old(dirs) ::
        n !in dirs <==> listed && n in Batch(names, old(cursor)) && Abandoned(old(dirs)[n], now, staleMs, alive)
    {
      if !listed { return; }
      var start := if |names| == 0 then 0 else cursor % |names|;
      var candidates := names[start..] + names[..start];
      var batch := if |candidates| < PENDING_LOCK_REAP_LIMIT then candidates else candidates[..PENDING_LOCK_REAP_LIMIT];
      assert batch == Batch(names, cursor);
      var i := 0;
      while i < |batch|
        invariant 0 <= i <= |batch|
        invariant cursor == old(cursor)
        invariant dirs.Keys <= old(dirs).Keys && forall n | n in dirs :: dirs[n] == old(dirs)[n]
        invariant forall n | n in old(dirs) ::
          n !in dirs <==> n in batch[..i] && Abandoned(old(dirs)[n], now, staleMs, alive)
      {
        var name := batch[i];
        assert batch[..i + 1] == batch[..i] + [name];
        if name in dirs {
          var abandoned := LooksAbandoned(dirs[name], now, staleMs, alive);
          if abandoned { dirs := dirs - {name}; }
        }
        i := i + 1;
      }
      assert batch[..|batch|] == batch;
      cursor := if |names| == 0 then 0 else (start + |batch|) % |names|;
    }
  }

  // ----- Every candidate gets its turn -----

  function CursorAfter(names: seq<string>, cursor: nat, calls: nat): nat {
    if calls == 0 then cursor else NextCursor(names, CursorAfter(names, cursor, calls - 1))
  }

  lemma ModOfSum(x: nat, y: nat, n: nat)
    requires n > 0
    ensures (x % n + y) % n == (x + y) % n
  {
    var z := x % n + y;
    var q, p := x / n, z / n;
    assert x == n * q + x % n && z == n * p + z % n;
    Distributes(q, p, n);
    DivisionIsUnique(x + y, q + p, z % n, n);
  }

  /** Candidates examined in `calls` passes of `b` each. */
  function Examined(calls: nat, b: nat): nat { if calls == 0 then 0 else Examined(calls - 1, b) + b }

  lemma {:induction false} ExaminedIsProduct(calls: nat, b: nat)
    ensures Examined(calls, b) == calls * b
  {
    if calls > 0 { ExaminedIsProduct(calls - 1, b); }
  }

  lemma {:induction false} CursorAdvances(names: seq<string>, cursor: nat, calls: nat)
    requires names != []
    ensures CursorAfter(names, cursor, calls) % |names| == (cursor + Examined(calls, |Batch(names, 0)|)) % |names|
  {
    if calls > 0 {
      CursorAdvances(names, cursor, calls - 1);
      var n, b, prev := |names|, |Batch(names, 0)|, CursorAfter(names, cursor, calls - 1);
      var x := cursor + Examined(calls - 1, b);
      assert |Batch(names, prev)| == b;
      AdvanceOnce(n, b, x, prev, NextCursor(names, prev));
    }
  }

  lemma AdvanceOnce(n: nat, b: nat, x: nat, prev: nat, next: nat)
    requires n > 0 && prev % n == x % n && next == (prev % n + b) % n
    ensures next % n == (x + b) % n
  {
    ModOfSum(x, b, n);
    DivisionIsUnique(next, 0, next, n);
  }

  lemma BatchElement(names: seq<string>, cursor: nat, j: nat)
    requires j < |Batch(names, cursor)|
    ensures Batch(names, cursor)[j] == names[(cursor % |names| + j) % |names|]
  {
    var n, start := |names|, cursor % |names|;
    if start + j >= n {
      DivisionIsUnique(start + j, 1, start + j - n, n);
    } else {
      DivisionIsUnique(start + j, 0, start + j, n);
    }
  }

  /** The distance from the cursor to candidate `i`, going forward around the list. */
  function Distance(n: nat, cursor: nat, i: nat): (d: nat)
    requires i < n
    ensures d < n
  {
    if cursor % n <= i then i - cursor % n else i + n - cursor % n
  }

  lemma DistanceReaches(n: nat, cursor: nat, i: nat)
    requires i < n
    ensures (cursor + Distance(n, cursor, i)) % n == i
  {
    var d, q := Distance(n, cursor, i), cursor % n;
    ModOfSum(cursor, d, n);
    DivisionIsUnique(q + d, if q <= i then 0 else 1, i, n);
  }

  lemma TurnBound(n: nat, b: nat, k: nat, j: nat)
    requires n > 0 && b == (if n < PENDING_LOCK_REAP_LIMIT then n else PENDING_LOCK_REAP_LIMIT)
    requires k * b + j < n
    ensures k < (n + PENDING_LOCK_REAP_LIMIT - 1) / PENDING_LOCK_REAP_LIMIT
  {
    if n < PENDING_LOCK_REAP_LIMIT {
      if k > 0 { assert k * n >= n; }
    }
  }

  /** With an unchanged list of n candidates, each is examined within the next ceil(n / 32) passes. */
  lemma EveryCandidateIsExamined(names: seq<string>, cursor: nat, i: nat)
    requires i < |names|
    ensures exists k: nat ::
      && k < (|names| + 31) / 32
      && names[i] in Batch(names, CursorAfter(names, cursor, k))
  {
    var n, b, d := |names|, |Batch(names, 0)|, Distance(|names|, cursor, i);
    var k, j := Divide(d, b);
    TurnBound(n, b, k, j);
    CursorAdvances(names, cursor, k);
    ExaminedIsProduct(k, b);
    DistanceReaches(n, cursor, i);
    var at, x := CursorAfter(names, cursor, k), cursor + k * b;
    assert x + j == cursor + d && at % n == x % n;
    ReachedAt(names, at, x, j, i);
  }

  lemma Divide(d: nat, b: nat) returns (k: nat, j: nat)
    requires b > 0
    ensures d == k * b + j && j < b
  {
    k, j := d / b, d % b;
    assert d == b * k + j;
  }

  lemma ReachedAt(names: seq<string>, at: nat, x: nat, j: nat, i: nat)
    requires i < |names| && j < |Batch(names, 0)| && at % |names| == x % |names| && (x + j) % |names| == i
    ensures names[i] in Batch(names, at)
  {
    BatchElement(names, at, j);
    ModOfSum(x, j, |names|);
    assert Batch(names, at)[j] == names[i];
  }
}
