/**
Operation records that block a write: the reader that lists them, and the two sweeps that first mark
stale ones as abandoned, in marker files and in the operations registry.
 */
module StaleSweep {
  import opened Wrappers
  import opened Json

  /** What a file holds, as far as reading and parsing it goes. */
  datatype File = Missing | Unreadable | Malformed | Parsed(j: J)

  /** The moment and limit of a sweep; `dateOf` parses a timestamp, `iso` is the moment as text. */
  datatype Sweep = Sweep(now: int, thresholdMs: int, dateOf: string -> Option<int>, iso: string)

  function TimeOf(sw: Sweep, m: Fields): Option<int> {
    if "updatedAt" in m && m["updatedAt"].JStr? then sw.dateOf(m["updatedAt"].s) else None
  }

  /** Has a readable timestamp at least the threshold old. */
  predicate Old(sw: Sweep, m: Fields) {
    TimeOf(sw, m).Some? && sw.now - TimeOf(sw, m).value >= sw.thresholdMs
  }

  predicate StaleRunning(sw: Sweep, m: Fields) { IsStr(m, "status", "running") && Old(sw, m) }

  function Abandon(sw: Sweep, m: Fields): Fields {
    m["status" := JStr("abandoned")]["abandonedAt" := JStr(sw.iso)]
  }

  // ----- The registry -----

  function SweptRecord(sw: Sweep, e: J): J {
    if e.JObj? && StaleRunning(sw, e.fields) then JObj(Abandon(sw, e.fields)) else e
  }

  function SweptRecords(sw: Sweep, rs: seq<J>): (r: seq<J>)
    ensures |r| == |rs| && forall i | 0 <= i < |rs| :: r[i] == SweptRecord(sw, rs[i])
  {
    seq(|rs|, i requires 0 <= i < |rs| => SweptRecord(sw, rs[i]))
  }

  predicate Flips(sw: Sweep, e: J) { e.JObj? && StaleRunning(sw, e.fields) }

  function FlipCount(sw: Sweep, rs: seq<J>): nat {
    if rs == [] then 0 else FlipCount(sw, rs[..|rs| - 1]) + (if Flips(sw, rs[|rs| - 1]) then 1 else 0)
  }

  predicate Wrapped(j: J) { j.JObj? && "records" in j.fields && j.fields["records"].JArr? }

  function SweptRegistry(sw: Sweep, f: File): File {
    if f.Parsed? && Wrapped(f.j) then
      Parsed(JObj(f.j.fields["records" := JArr(SweptRecords(sw, f.j.fields["records"].items))]))
    else f
  }

  // ----- Marker files -----

  function MarkerOf(m: Fields): Fields { if HasObj(m, "marker") then m["marker"].fields else m }

  function SweptMarker(sw: Sweep, m: Fields): Fields {
    if !StaleRunning(sw, MarkerOf(m)) then m
    else
      var next := Abandon(sw, m);
      if "marker" in m then next["marker" := JObj(Abandon(sw, MarkerOf(m)))] else next
  }

  function SweptFile(sw: Sweep, f: File): File {
    if f.Parsed? && f.j.JObj? then Parsed(JObj(SweptMarker(sw, f.j.fields))) else f
  }

  predicate IsJsonName(name: string) { |name| >= 5 && name[|name| - 5..] == ".json" }

  // ----- The reader -----

  /** Where the write is aimed: which recorded paths are identical to the project root and to the frontend. */
  datatype Target = Target(isRoot: string -> bool, isFrontend: string -> bool)

  predicate AimsAt(t: Target, m: Fields) {
    && ("projectRootAbs" in m && m["projectRootAbs"].JStr? ==> t.isRoot(m["projectRootAbs"].s))
    && ("accessPath" in m && m["accessPath"].JStr? ==> t.isFrontend(m["accessPath"].s))
  }

  predicate Blocks(t: Target, j: J) {
    j.JObj? && IsStr(MarkerOf(j.fields), "status", "running") && AimsAt(t, MarkerOf(j.fields))
  }

  function BlockerId(j: J, fallback: string): string
    requires j.JObj?
  {
    var m := MarkerOf(j.fields);
    if "operationId" in m && m["operationId"].JStr? && m["operationId"].s != "" then m["operationId"].s else fallback
  }

  /** The reader takes records from both shapes of the registry. */
  function RegistryRecords(f: File): seq<J> {
    if !f.Parsed? then []
    else if f.j.JArr? then f.j.items
    else if Wrapped(f.j) then f.j.fields["records"].items
    else []
  }

  type Markers = map<string, File>

  predicate IsListed(names: seq<string>, markers: Markers, n: string) {
    n in names && IsJsonName(n) && n in markers && markers[n].Parsed?
  }

  function AddId(ids: seq<string>, id: string): seq<string> { if id in ids then ids else ids + [id] }

  function RegistryIds(t: Target, records: seq<J>): seq<string> {
    if records == [] then []
    else
      var ids, j := RegistryIds(t, records[..|records| - 1]), records[|records| - 1];
      if Blocks(t, j) then AddId(ids, BlockerId(j, "operations.json")) else ids
  }

  function MarkerIds(t: Target, ids: seq<string>, names: seq<string>, markers: Markers): seq<string> {
    if names == [] then ids
    else
      var before, n := MarkerIds(t, ids, names[..|names| - 1], markers), names[|names| - 1];
      if IsListed([n], markers, n) && Blocks(t, markers[n].j) then AddId(before, BlockerId(markers[n].j, n)) else before
  }

  /** The identifiers of the blocking operations in order of discovery, each once. */
  function RunningIds(t: Target, registry: File, names: seq<string>, markers: Markers): seq<string> {
    MarkerIds(t, RegistryIds(t, RegistryRecords(registry)), names, markers)
  }

  function SweptMarkers(sw: Sweep, names: seq<string>, markers: Markers, failing: set<string>): Markers {
    map n | n in markers ::
      if n in names && IsJsonName(n) && n !in failing then SweptFile(sw, markers[n]) else markers[n]
  }

  // ----- The tests as the loops perform them -----

  method HasGoneStale(sw: Sweep, record: Fields) returns (stale: bool)
    ensures stale == StaleRunning(sw, record)
  {
    if "status" !in record || record["status"] != JStr("running") { return false; }
    if "updatedAt" !in record || !record["updatedAt"].JStr? { return false; }
    var updatedAt := sw.dateOf(record["updatedAt"].s);
    if updatedAt.None? { return false; }
    return !(sw.now - updatedAt.value < sw.thresholdMs);
  }

  method AbandonedCopy(sw: Sweep, record: Fields) returns (copy: Fields)
    ensures copy == Abandon(sw, record)
  {
    copy := record["status" := JStr("abandoned")];
    copy := copy["abandonedAt" := JStr(sw.iso)];
  }

  method InnerRecord(parsed: Fields) returns (record: Fields)
    ensures record == MarkerOf(parsed)
  {
    record := parsed;
    if "marker" in parsed && parsed["marker"].JObj? { record := parsed["marker"].fields; }
  }

  /** What the marker sweep writes for one parsed file; nothing if the record has not gone stale. */
  method SweepMarkerObject(sw: Sweep, parsed: Fields) returns (stale: bool, next: Fields)
    ensures next == SweptMarker(sw, parsed) && (!stale ==> next == parsed)
  {
    next := parsed;
    var record := InnerRecord(parsed);
    stale := HasGoneStale(sw, record);
    if stale {
      next := AbandonedCopy(sw, parsed);
      if "marker" in parsed {
        var inner := AbandonedCopy(sw, record);
        next := next["marker" := JObj(inner)];
      }
    }
  }

  /** What the registry sweep makes of one entry. */
  method SweepEntry(sw: Sweep, entry: J) returns (flipped: bool, next: J)
    ensures next == SweptRecord(sw, entry) && flipped == Flips(sw, entry)
  {
    flipped, next := false, entry;
    if !entry.JObj? { return; }
    flipped := HasGoneStale(sw, entry.fields);
    if flipped {
      var copy := AbandonedCopy(sw, entry.fields);
      next := JObj(copy);
    }
  }

  /** The loop over the entries, changing them in place and counting. */
  method SweepEntries(sw: Sweep, entries: seq<J>) returns (records: seq<J>, flips: nat)
    ensures records == SweptRecords(sw, entries) && flips == FlipCount(sw, entries)
    ensures flips == 0 ==> records == entries
  {
    records, flips := entries, 0;
    var i := 0;
    while i < |records|
      invariant 0 <= i <= |records| == |entries|
      invariant forall k | 0 <= k < i :: records[k] == SweptRecord(sw, entries[k])
      invariant forall k | i <= k < |entries| :: records[k] == entries[k]
      invariant flips == FlipCount(sw, entries[..i])
      invariant flips == 0 ==> records == entries
    {
      assert entries[..i + 1][..i] == entries[..i];
      var flipped, next := SweepEntry(sw, records[i]);
      if flipped {
        records := records[i := next];
        flips := flips + 1;
      }
      i := i + 1;
    }
    assert entries[..|entries|] == entries;
  }

  method EndsWithJson(name: string) returns (yes: bool)
    ensures yes == IsJsonName(name)
  {
    yes := |name| >= 5 && name[|name| - 5..] == ['.', 'j', 's', 'o', 'n'];
  }

  /** The identifier of a blocking record, if it is one. */
  method BlockingId(t: Target, value: J, fallback: string) returns (id: Option<string>)
    ensures id == if Blocks(t, value) then Some(BlockerId(value, fallback)) else None
  {
    if !value.JObj? { return None; }
    var marker := InnerRecord(value.fields);
    if "status" !in marker || marker["status"] != JStr("running") { return None; }
    if "projectRootAbs" in marker && marker["projectRootAbs"].JStr? && !t.isRoot(marker["projectRootAbs"].s) {
      return None;
    }
    if "accessPath" in marker && marker["accessPath"].JStr? && !t.isFrontend(marker["accessPath"].s) { return None; }
    if "operationId" in marker && marker["operationId"].JStr? && |marker["operationId"].s| > 0 {
      return Some(marker["operationId"].s);
    }
    return Some(fallback);
  }

  class OperationSources {
    var registry: File
    var markers: Markers

    constructor (registry: File, markers: Markers)
      ensures this.registry == registry && this.markers == markers
    {
      this.registry, this.markers := registry, markers;
    }

    /** `names` is the directory listing; files in `failing` cannot be written. */
    method ReapStaleMarkerFiles(names: seq<string>, sw: Sweep, failing: set<string>)
      modifies this`markers
      ensures markers == SweptMarkers(sw, names, old(markers), failing)
    {
      var i := 0;
      while i < |names|
        invariant 0 <= i <= |names| && markers.Keys == old(markers).Keys
        invariant forall n | n in markers ::
          markers[n] == if n in names[..i] && IsJsonName(n) && n !in failing then SweptFile(sw, old(markers)[n])
                        else old(markers)[n]
      {
        var name := names[i];
        assert names[..i + 1] == names[..i] + [name];
        if name in markers {
          SweptFileTwice(sw, old(markers)[name]);
          var json := EndsWithJson(name);
          if json && markers[name].Parsed? && markers[name].j.JObj? {
            var stale, next := SweepMarkerObject(sw, markers[name].j.fields);
            if stale && name !in failing { markers := markers[name := Parsed(JObj(next))]; }
          }
        }
        i := i + 1;
      }
      assert names[..|names|] == names;
    }

    method ReapStaleOperationsRegistry(sw: Sweep, writable: bool) returns (reaped: nat)
      modifies this`registry
      ensures registry == if writable then SweptRegistry(sw, old(registry)) else old(registry)
      ensures reaped == if writable && old(registry).Parsed? && Wrapped(old(registry).j)
                        then FlipCount(sw, old(registry).j.fields["records"].items) else 0
    {
      reaped := 0;
      if !registry.Parsed? || !Wrapped(registry.j) { return; }
      var fields := registry.j.fields;
      var records, flips := SweepEntries(sw, fields["records"].items);
      var mutated := flips > 0;
      if mutated {
        if writable {
          registry := Parsed(JObj(fields["records" := JArr(records)]));
          reaped := flips;
        }
      } else {
        assert fields["records" := JArr(records)] == fields;
      }
    }

    /** The identifiers of the blocking operations, each once, registry first. */
    method FindRunningOperations(names: seq<string>, t: Target) returns (ids: seq<string>)
      ensures ids == RunningIds(t, registry, names, markers)
    {
      ids := [];
      var records := RegistryRecords(registry);
      var i := 0;
      while i < |records|
        invariant 0 <= i <= |records| && ids == RegistryIds(t, records[..i])
      {
        var j := records[i];
        assert records[..i + 1][..i] == records[..i];
        var id := BlockingId(t, j, "operations.json");
        if id.Some? && id.value !in ids { ids := ids + [id.value]; }
        i := i + 1;
      }
      assert records[..|records|] == records;
      ghost var fromRegistry := ids;
      i := 0;
      while i < |names|
        invariant 0 <= i <= |names| && ids == MarkerIds(t, fromRegistry, names[..i], markers)
      {
        var n := names[i];
        assert names[..i + 1][..i] == names[..i];
        var json := EndsWithJson(n);
        if json && n in markers && markers[n].Parsed? {
          var id := BlockingId(t, markers[n].j, n);
          if id.Some? && id.value !in ids { ids := ids + [id.value]; }
        }
        i := i + 1;
      }
      assert names[..|names|] == names;
    }

    /** The gate before a write: both sweeps, then the reader. */
    method BlockersAfterSweeps(names: seq<string>, sw: Sweep, t: Target, failing: set<string>, writable: bool)
      returns (ids: seq<string>)
      modifies this
      ensures registry == (if writable then SweptRegistry(sw, old(registry)) else old(registry))
      ensures markers == SweptMarkers(sw, names, old(markers), failing)
      ensures ids == GateIds(sw, t, Runtime(old(registry), names, old(markers), failing, writable))
    {
      ReapStaleMarkerFiles(names, sw, failing);
      var _ := ReapStaleOperationsRegistry(sw, writable);
      ids := FindRunningOperations(names, t);
    }
  }

  // ----- What the reader lists -----

  lemma {:induction false} RegistryIdsExact(t: Target, records: seq<J>, id: string)
    ensures id in RegistryIds(t, records) <==>
            exists i | 0 <= i < |records| :: Blocks(t, records[i]) && id == BlockerId(records[i], "operations.json")
    ensures Distinct(RegistryIds(t, records))
  {
    if records != [] { RegistryIdsExact(t, records[..|records| - 1], id); }
  }

  lemma {:induction false} MarkerIdsExact(t: Target, ids: seq<string>, names: seq<string>, markers: Markers, id: string)
    requires Distinct(ids)
    ensures id in MarkerIds(t, ids, names, markers) <==>
            id in ids || exists i | 0 <= i < |names| ::
              && IsListed(names, markers, names[i]) && Blocks(t, markers[names[i]].j)
              && id == BlockerId(markers[names[i]].j, names[i])
    ensures Distinct(MarkerIds(t, ids, names, markers))
  {
    if names != [] { MarkerIdsExact(t, ids, names[..|names| - 1], markers, id); }
  }

  /** Nothing the reader looks at is a blocker. */
  ghost predicate NothingBlocks(t: Target, registry: File, names: seq<string>, markers: Markers) {
    && (forall j | j in RegistryRecords(registry) :: !Blocks(t, j))
    && (forall n | IsListed(names, markers, n) :: !Blocks(t, markers[n].j))
  }

  /** The reader lists exactly the identifiers of the blocking records, each once. */
  lemma RunningIdsExact(t: Target, registry: File, names: seq<string>, markers: Markers, id: string)
    ensures id in RunningIds(t, registry, names, markers) <==>
            || (exists j | j in RegistryRecords(registry) :: Blocks(t, j) && id == BlockerId(j, "operations.json"))
            || (exists n | IsListed(names, markers, n) :: Blocks(t, markers[n].j) && id == BlockerId(markers[n].j, n))
    ensures Distinct(RunningIds(t, registry, names, markers))
  {
    var rs := RegistryRecords(registry);
    RegistryIdsExact(t, rs, id);
    MarkerIdsExact(t, RegistryIds(t, rs), names, markers, id);
    if j :| j in rs && Blocks(t, j) && id == BlockerId(j, "operations.json") {
      var i :| 0 <= i < |rs| && rs[i] == j;
      assert Blocks(t, rs[i]);
    }
    if n :| IsListed(names, markers, n) && Blocks(t, markers[n].j) && id == BlockerId(markers[n].j, n) {
      var i :| 0 <= i < |names| && names[i] == n;
      assert IsListed(names, markers, names[i]);
    }
  }

  lemma NoIdsIff(t: Target, registry: File, names: seq<string>, markers: Markers)
    ensures RunningIds(t, registry, names, markers) == [] <==> NothingBlocks(t, registry, names, markers)
  {
    var ids := RunningIds(t, registry, names, markers);
    if ids != [] {
      assert ids[0] in ids;
      RunningIdsExact(t, registry, names, markers, ids[0]);
    } else {
      forall j | j in RegistryRecords(registry) ensures !Blocks(t, j) {
        if Blocks(t, j) { RunningIdsExact(t, registry, names, markers, BlockerId(j, "operations.json")); }
      }
      forall n | IsListed(names, markers, n) ensures !Blocks(t, markers[n].j) {
        if Blocks(t, markers[n].j) { RunningIdsExact(t, registry, names, markers, BlockerId(markers[n].j, n)); }
      }
    }
  }

  // ----- When the gate opens -----

  /** What the gate finds on disk; `failing` marker files and, unless `writable`, the registry cannot be written. */
  datatype Runtime = Runtime(registry: File, names: seq<string>, markers: Markers, failing: set<string>, writable: bool)

  function RegistryAfter(sw: Sweep, on: Runtime): File {
    if on.writable then SweptRegistry(sw, on.registry) else on.registry
  }

  function MarkersAfter(sw: Sweep, on: Runtime): Markers { SweptMarkers(sw, on.names, on.markers, on.failing) }

  function GateIds(sw: Sweep, t: Target, on: Runtime): seq<string> {
    RunningIds(t, RegistryAfter(sw, on), on.names, MarkersAfter(sw, on))
  }

  /** Every blocker found is past the threshold, in a shape its sweep looks at, in a file that can be written. */
  ghost predicate AllRetirable(sw: Sweep, t: Target, on: Runtime) {
    && (forall j | j in RegistryRecords(on.registry) && Blocks(t, j) ::
          on.writable && SweepSees(on.registry, j) && Old(sw, MarkerOf(j.fields)))
    && (forall n | IsListed(on.names, on.markers, n) && Blocks(t, on.markers[n].j) ::
          n !in on.failing && Old(sw, MarkerOf(on.markers[n].j.fields)))
  }

  lemma SweptRecordStillBlocks(sw: Sweep, t: Target, j: J)
    ensures Blocks(t, SweptRecord(sw, j)) <==> Blocks(t, j) && (NestsMarker(j) || !Old(sw, MarkerOf(j.fields)))
  {
    if j.JObj? && StaleRunning(sw, j.fields) {
      var a := Abandon(sw, j.fields);
      assert "marker" in a <==> "marker" in j.fields;
    }
  }

  lemma SweptFileStillBlocks(sw: Sweep, t: Target, f: File)
    requires f.Parsed?
    ensures SweptFile(sw, f).Parsed?
    ensures Blocks(t, SweptFile(sw, f).j) <==> Blocks(t, f.j) && !Old(sw, MarkerOf(f.j.fields))
  {
    if f.j.JObj? { SweptMarkerIsAbandoned(sw, f.j.fields); }
  }

  lemma RegistryClearIff(sw: Sweep, t: Target, on: Runtime)
    ensures (forall j | j in RegistryRecords(RegistryAfter(sw, on)) :: !Blocks(t, j)) <==>
            (forall j | j in RegistryRecords(on.registry) && Blocks(t, j) ::
               on.writable && SweepSees(on.registry, j) && Old(sw, MarkerOf(j.fields)))
  {
    var rs, rs' := RegistryRecords(on.registry), RegistryRecords(RegistryAfter(sw, on));
    if on.writable && on.registry.Parsed? && Wrapped(on.registry.j) {
      forall i | 0 <= i < |rs|
        ensures Blocks(t, rs'[i]) <==> Blocks(t, rs[i]) && (NestsMarker(rs[i]) || !Old(sw, MarkerOf(rs[i].fields)))
      {
        SweptRecordStillBlocks(sw, t, rs[i]);
      }
      NoneLeftIff(rs, rs', (j: J) => Blocks(t, j),
                  (j: J) => NestsMarker(j) || !(j.JObj? && Old(sw, MarkerOf(j.fields))));
    } else {
      assert rs' == rs;
    }
  }

  /** When record i stays bad exactly if it is kept, none is left exactly if no bad one is kept. */
  lemma NoneLeftIff(rs: seq<J>, rs': seq<J>, bad: J -> bool, kept: J -> bool)
    requires |rs| == |rs'| && forall i | 0 <= i < |rs| :: bad(rs'[i]) <==> bad(rs[i]) && kept(rs[i])
    ensures (forall j | j in rs' :: !bad(j)) <==> (forall j | j in rs && bad(j) :: !kept(j))
  {
    if j :| j in rs && bad(j) && kept(j) {
      var i :| 0 <= i < |rs| && rs[i] == j;
      assert rs'[i] in rs' && bad(rs'[i]);
    } else {
      forall j | j in rs' ensures !bad(j) {
        var i :| 0 <= i < |rs'| && rs'[i] == j;
        assert rs[i] in rs;
      }
    }
  }

  lemma MarkersClearIff(sw: Sweep, t: Target, on: Runtime)
    ensures (forall n | IsListed(on.names, MarkersAfter(sw, on), n) :: !Blocks(t, MarkersAfter(sw, on)[n].j)) <==>
            (forall n | IsListed(on.names, on.markers, n) && Blocks(t, on.markers[n].j) ::
               n !in on.failing && Old(sw, MarkerOf(on.markers[n].j.fields)))
  {
    var after := MarkersAfter(sw, on);
    forall n | n in on.markers
      ensures IsListed(on.names, after, n) <==> IsListed(on.names, on.markers, n)
      ensures IsListed(on.names, after, n) ==>
        (Blocks(t, after[n].j) <==>
         Blocks(t, on.markers[n].j) && (n in on.failing || !Old(sw, MarkerOf(on.markers[n].j.fields))))
    {
      if on.markers[n].Parsed? { SweptFileStillBlocks(sw, t, on.markers[n]); }
    }
  }

  /**
  The gate opens exactly when nothing blocks after the sweeps, which is exactly when every operation that
  was running against this target before them had grown stale and could be marked as abandoned.
   */
  lemma GateOpensIff(sw: Sweep, t: Target, on: Runtime)
    ensures GateIds(sw, t, on) == [] <==> NothingBlocks(t, RegistryAfter(sw, on), on.names, MarkersAfter(sw, on))
    ensures GateIds(sw, t, on) == [] <==> AllRetirable(sw, t, on)
  {
    NoIdsIff(t, RegistryAfter(sw, on), on.names, MarkersAfter(sw, on));
    RegistryClearIff(sw, t, on);
    MarkersClearIff(sw, t, on);
  }

  // ----- After the sweeps -----

  /** A blocker that the sweep should have retired: it has a readable timestamp past the threshold. */
  predicate StaleBlocker(sw: Sweep, t: Target, j: J) { Blocks(t, j) && Old(sw, MarkerOf(j.fields)) }

  lemma SweptMarkerIsAbandoned(sw: Sweep, m: Fields)
    ensures !StaleRunning(sw, MarkerOf(SweptMarker(sw, m)))
  {
  }

  lemma SweptFileTwice(sw: Sweep, f: File)
    ensures SweptFile(sw, SweptFile(sw, f)) == SweptFile(sw, f)
  {
    if f.Parsed? && f.j.JObj? { SweptMarkerIsAbandoned(sw, f.j.fields); }
  }

  /** No swept marker file, of either shape, holds a stale blocker. */
  lemma MarkerSweepRetiresAll(sw: Sweep, t: Target, f: File)
    requires SweptFile(sw, f).Parsed?
    ensures !StaleBlocker(sw, t, SweptFile(sw, f).j)
  {
    if f.Parsed? && f.j.JObj? { SweptMarkerIsAbandoned(sw, f.j.fields); }
  }

  predicate NestsMarker(j: J) { j.JObj? && HasObj(j.fields, "marker") }

  /** The record is in a shape the registry sweep looks at: a flat entry of a wrapped registry. */
  predicate SweepSees(f: File, j: J) { f.Parsed? && Wrapped(f.j) && !NestsMarker(j) }

  lemma SweptRecordBlocks(sw: Sweep, t: Target, j: J)
    ensures StaleBlocker(sw, t, SweptRecord(sw, j)) <==> StaleBlocker(sw, t, j) && NestsMarker(j)
  {
    SweptRecordStillBlocks(sw, t, j);
  }

  /**
  The registry sweep retires every stale blocker exactly when each of them is a flat entry of a wrapped
  registry; the bare array the reader also accepts, and nested entries, keep theirs.
   */
  lemma RegistrySweepRetiresIff(sw: Sweep, t: Target, f: File)
    ensures (forall j | j in RegistryRecords(SweptRegistry(sw, f)) :: !StaleBlocker(sw, t, j))
       <==> (forall j | j in RegistryRecords(f) && StaleBlocker(sw, t, j) :: SweepSees(f, j))
  {
    var rs, rs' := RegistryRecords(f), RegistryRecords(SweptRegistry(sw, f));
    if f.Parsed? && Wrapped(f.j) {
      forall i | 0 <= i < |rs|
        ensures StaleBlocker(sw, t, rs'[i]) <==> StaleBlocker(sw, t, rs[i]) && NestsMarker(rs[i])
      {
        SweptRecordBlocks(sw, t, rs[i]);
      }
      NoneLeftIff(rs, rs', (j: J) => StaleBlocker(sw, t, j), (j: J) => NestsMarker(j));
    } else {
      assert rs' == rs;
    }
  }

  /** The two shapes that survive: the same stale record in a bare array, and nested inside a wrapped entry. */
  lemma UnsweptShapes(sw: Sweep, t: Target, m: Fields)
    requires StaleRunning(sw, m) && AimsAt(t, m) && "marker" !in m
    ensures var bare := Parsed(JArr([JObj(m)]));
            SweptRegistry(sw, bare) == bare && StaleBlocker(sw, t, RegistryRecords(bare)[0])
    ensures var nested := Parsed(JObj(map["records" := JArr([JObj(map["marker" := JObj(m)])])]));
            && |RegistryRecords(SweptRegistry(sw, nested))| == 1
            && StaleBlocker(sw, t, RegistryRecords(SweptRegistry(sw, nested))[0])
  {
    SweptRecordBlocks(sw, t, JObj(map["marker" := JObj(m)]));
  }

  /** Sweeping again at the same moment changes nothing and flips nothing. */
  lemma RegistrySweepIsIdempotent(sw: Sweep, f: File)
    ensures SweptRegistry(sw, SweptRegistry(sw, f)) == SweptRegistry(sw, f)
    ensures f.Parsed? && Wrapped(f.j) ==> FlipCount(sw, SweptRecords(sw, f.j.fields["records"].items)) == 0
  {
    if f.Parsed? && Wrapped(f.j) {
      var rs := f.j.fields["records"].items;
      assert SweptRecords(sw, SweptRecords(sw, rs)) == SweptRecords(sw, rs);
      NothingFlips(sw, SweptRecords(sw, rs));
    }
  }

  lemma {:induction false} NothingFlips(sw: Sweep, rs: seq<J>)
    requires forall i | 0 <= i < |rs| :: !Flips(sw, rs[i])
    ensures FlipCount(sw, rs) == 0
  {
    if rs != [] { NothingFlips(sw, rs[..|rs| - 1]); }
  }

  /** `after` is `before`, or `before` with its status flipped from running to abandoned and the moment added. */
  predicate OnlyFlips(sw: Sweep, before: Fields, after: Fields) {
    after == before || (IsStr(before, "status", "running") && after == Abandon(sw, before))
  }

  lemma RegistrySweepOnlyFlips(sw: Sweep, rs: seq<J>, i: nat)
    requires i < |rs|
    ensures SweptRecords(sw, rs)[i] == rs[i] ||
            (rs[i].JObj? && SweptRecords(sw, rs)[i].JObj?
             && OnlyFlips(sw, rs[i].fields, SweptRecords(sw, rs)[i].fields))
    ensures SweptRecords(sw, rs)[i] != rs[i] ==> Flips(sw, rs[i])
  {
  }

  /** The same for a marker file, at the outer object and at the nested marker. */
  predicate MarkerOnlyFlips(sw: Sweep, before: Fields, after: Fields) {
    if HasObj(before, "marker") then
      && HasObj(after, "marker")
      && OnlyFlips(sw, before["marker"].fields, after["marker"].fields)
      && OnlyFlips(sw, before, after["marker" := before["marker"]])
    else OnlyFlips(sw, before, after)
  }

  /**
  A marker file that is swept changes by flips alone exactly when it has no `marker` member, or a nested
  marker under an outer object that is itself running or already bears this very abandonment; otherwise
  an outer status is overwritten, or a `marker` member that is not an object is replaced by a copy of the record.
   */
  lemma MarkerSweepOnlyFlipsIff(sw: Sweep, m: Fields)
    requires StaleRunning(sw, MarkerOf(m))
    ensures MarkerOnlyFlips(sw, m, SweptMarker(sw, m)) <==>
            "marker" !in m || (HasObj(m, "marker") && (IsStr(m, "status", "running") || Abandon(sw, m) == m))
  {
    var s := SweptMarker(sw, m);
    if HasObj(m, "marker") {
      var outer := s["marker" := m["marker"]];
      assert outer == Abandon(sw, m) by {
        assert Abandon(sw, m)["marker"] == m["marker"];
      }
    } else if "marker" in m {
      assert s["marker"].JObj?;
      assert Abandon(sw, m)["marker"] == m["marker"];
    }
  }

  /** A completed operation whose nested marker was left running is swept to abandoned on the outside too. */
  lemma OuterStatusIsOverwritten(sw: Sweep, marker: Fields)
    requires StaleRunning(sw, marker)
    ensures var m: Fields := map["status" := JStr("completed"), "marker" := JObj(marker)];
            && IsStr(m, "status", "completed") && IsStr(SweptMarker(sw, m), "status", "abandoned")
            && !MarkerOnlyFlips(sw, m, SweptMarker(sw, m))
  {
    var m: Fields := map["status" := JStr("completed"), "marker" := JObj(marker)];
    assert MarkerOf(m) == marker;
    assert Abandon(sw, m)["status"] != m["status"];
    MarkerSweepOnlyFlipsIff(sw, m);
  }

  // ----- In terms of status, timestamp and threshold alone -----

  predicate SaysRunning(m: Fields) { "status" in m && m["status"] == JStr("running") }

  /** The record is timestamped at `t`. */
  predicate UpdatedAt(sw: Sweep, m: Fields, t: int) {
    "updatedAt" in m && m["updatedAt"].JStr? && sw.dateOf(m["updatedAt"].s) == Some(t)
  }

  predicate NoReadableTime(sw: Sweep, m: Fields) {
    "updatedAt" in m && m["updatedAt"].JStr? ==> sw.dateOf(m["updatedAt"].s) == None
  }

  /** A running record younger than the threshold, or without a readable timestamp. */
  ghost predicate LooksAlive(sw: Sweep, m: Fields) {
    SaysRunning(m) && (NoReadableTime(sw, m) || exists t: int :: UpdatedAt(sw, m, t) && sw.now - t < sw.thresholdMs)
  }

  lemma AliveIsNotStale(sw: Sweep, m: Fields)
    requires LooksAlive(sw, m)
    ensures !StaleRunning(sw, m)
  {
  }

  /** The object is the record itself, or carries it as its marker. */
  predicate Carries(file: Fields, m: Fields) {
    if "marker" in file then file["marker"] == JObj(m) else file == m
  }

  /** Neither sweep touches a record that looks alive: as a registry entry, a flat marker, or a nested one. */
  lemma AliveIsUntouched(sw: Sweep, m: Fields, file: Fields)
    requires LooksAlive(sw, m) && Carries(file, m)
    ensures SweptRecord(sw, JObj(m)) == JObj(m)
    ensures SweptFile(sw, Parsed(JObj(file))) == Parsed(JObj(file))
  {
    AliveIsNotStale(sw, m);
  }

  /** The record names no other project root and no other frontend. */
  predicate AimedHere(t: Target, m: Fields) {
    && !("projectRootAbs" in m && m["projectRootAbs"].JStr? && !t.isRoot(m["projectRootAbs"].s))
    && !("accessPath" in m && m["accessPath"].JStr? && !t.isFrontend(m["accessPath"].s))
  }

  /** The file is a registry, of either shape, whose entry number `i` is `j`. */
  predicate RegistryHolds(f: File, i: nat, j: J) {
    && f.Parsed?
    && ((f.j.JArr? && i < |f.j.items| && f.j.items[i] == j)
        || (f.j.JObj? && "records" in f.j.fields && f.j.fields["records"].JArr?
            && i < |f.j.fields["records"].items| && f.j.fields["records"].items[i] == j))
  }

  /** An operation in the registry that looks alive and is aimed here keeps the gate closed. */
  lemma LiveEntryKeepsGateClosed(sw: Sweep, t: Target, on: Runtime, i: nat, m: Fields)
    requires RegistryHolds(on.registry, i, JObj(m)) && "marker" !in m && LooksAlive(sw, m) && AimedHere(t, m)
    ensures GateIds(sw, t, on) != []
  {
    var j := JObj(m);
    AliveIsNotStale(sw, m);
    assert j in RegistryRecords(on.registry) && Blocks(t, j);
    GateOpensIff(sw, t, on);
  }

  /** So does a marker file whose record, flat or nested, looks alive and is aimed here. */
  lemma LiveMarkerKeepsGateClosed(sw: Sweep, t: Target, on: Runtime, stem: string, m: Fields, file: Fields)
    requires var name := stem + ".json";
             name in on.names && name in on.markers && on.markers[name] == Parsed(JObj(file))
    requires Carries(file, m)
    requires LooksAlive(sw, m) && AimedHere(t, m)
    ensures GateIds(sw, t, on) != []
  {
    var name := stem + ".json";
    assert name[|name| - 5..] == ".json";
    AliveIsNotStale(sw, m);
    assert IsListed(on.names, on.markers, name) && Blocks(t, on.markers[name].j);
    GateOpensIff(sw, t, on);
  }

  /** After both sweeps a running record at least the threshold old is abandoned: an entry of a wrapped registry. */
  lemma StaleEntryIsAbandoned(sw: Sweep, on: Runtime, f: Fields, i: nat, m: Fields, t: int)
    requires SaysRunning(m) && UpdatedAt(sw, m, t) && sw.now - t >= sw.thresholdMs
    requires on.writable && on.registry == Parsed(JObj(f))
    requires "records" in f && f["records"].JArr? && i < |f["records"].items| && f["records"].items[i] == JObj(m)
    ensures RegistryHolds(RegistryAfter(sw, on), i,
                          JObj(m["status" := JStr("abandoned")]["abandonedAt" := JStr(sw.iso)]))
  {
  }

  /** And so is one in a marker file, flat or nested, whose outer object is then marked too. */
  lemma StaleMarkerIsAbandoned(sw: Sweep, on: Runtime, stem: string, file: Fields, m: Fields, t: int)
    requires SaysRunning(m) && UpdatedAt(sw, m, t) && sw.now - t >= sw.thresholdMs
    requires var name := stem + ".json";
             && name in on.names && name in on.markers && name !in on.failing
             && on.markers[name] == Parsed(JObj(file))
    requires Carries(file, m)
    ensures var name, after := stem + ".json", m["status" := JStr("abandoned")]["abandonedAt" := JStr(sw.iso)];
            && name in MarkersAfter(sw, on)
            && MarkersAfter(sw, on)[name] == Parsed(JObj(
                 if "marker" !in file then after
                 else file["status" := JStr("abandoned")]["abandonedAt" := JStr(sw.iso)]["marker" := JObj(after)]))
  {
    var name := stem + ".json";
    assert name[|name| - 5..] == ".json";
    assert IsJsonName(name);
    assert StaleRunning(sw, MarkerOf(file));
  }
}
