/** The page of log entries: merged sources, filters, a stable sort by timestamp, and a limit. */
module LogPage {
  import opened Wrappers

  datatype LogEntry = LogEntry(
    timestamp: string, level: string, operationId: Option<string>, tool: string, action: string, message: string)

  datatype Options = Options(
    since: Option<string>, until: Option<string>, level: Option<string>, operationId: Option<string>,
    tool: Option<string>, action: Option<string>, limit: Option<int>, ascending: bool)

  const DEFAULT_LIMIT: nat := 100
  const MAX_LIMIT: nat := 1000

  /** `value` is the floor of the requested limit, absent when none or not a number was given. */
  function ClampLimit(value: Option<int>): (n: nat)
    ensures 1 <= n <= 1000
    ensures value.Some? && 1 <= value.value <= 1000 ==> n == value.value
    ensures value.Some? && value.value > 1000 ==> n == 1000
    ensures value.None? || value.value <= 0 ==> n == 100
  {
    if value.None? || value.value <= 0 then DEFAULT_LIMIT
    else if value.value < MAX_LIMIT then value.value else MAX_LIMIT
  }

  // ----- Comparing timestamps as texts -----

  predicate Less(a: string, b: string) {
    b != "" && (a == "" || a[0] < b[0] || (a[0] == b[0] && Less(a[1..], b[1..])))
  }

  lemma {:induction false} LessIsTotal(a: string, b: string)
    ensures a == b || Less(a, b) || Less(b, a)
    ensures !(Less(a, b) && Less(b, a)) && (a == b ==> !Less(a, b))
  {
    if a != "" && b != "" && a[0] == b[0] {
      LessIsTotal(a[1..], b[1..]);
      assert a == [a[0]] + a[1..] && b == [b[0]] + b[1..];
    }
  }

  lemma {:induction false} LessIsTransitive(a: string, b: string, c: string)
    requires Less(a, b) && Less(b, c)
    ensures Less(a, c)
  {
    if a != "" && a[0] == b[0] && b[0] == c[0] { LessIsTransitive(a[1..], b[1..], c[1..]); }
  }

  /** One text comes before another if it is a proper prefix of it, or smaller where they first differ. */
  ghost predicate ComesBefore(a: string, b: string) {
    exists n: nat | n <= |a| && n < |b| ::
      && a[..n] == b[..n]
      && (n == |a| || a[n] < b[n])
  }

  lemma {:induction false} LessMeans(a: string, b: string)
    ensures Less(a, b) <==> ComesBefore(a, b)
  {
    if Less(a, b) {
      var n := FirstDifference(a, b);
    } else if ComesBefore(a, b) {
      var n: nat :| n <= |a| && n < |b| && a[..n] == b[..n] && (n == |a| || a[n] < b[n]);
      SmallerIsLess(a, b, n);
    }
  }

  lemma {:induction false} FirstDifference(a: string, b: string) returns (n: nat)
    requires Less(a, b)
    ensures n <= |a| && n < |b| && a[..n] == b[..n] && (n == |a| || a[n] < b[n])
  {
    n := 0;
    if a != "" && a[0] == b[0] {
      n := FirstDifference(a[1..], b[1..]);
      assert a[..n + 1] == [a[0]] + a[1..][..n] && b[..n + 1] == [b[0]] + b[1..][..n];
      n := n + 1;
    }
  }

  lemma {:induction false} SmallerIsLess(a: string, b: string, n: nat)
    requires n <= |a| && n < |b| && a[..n] == b[..n] && (n == |a| || a[n] < b[n])
    ensures Less(a, b)
  {
    if n > 0 {
      assert a[0] == a[..n][0] == b[..n][0] == b[0];
      assert a[1..][..n - 1] == a[..n][1..] && b[1..][..n - 1] == b[..n][1..];
      SmallerIsLess(a[1..], b[1..], n - 1);
    }
  }

  /** The comparison used for sorting is not positive. */
  predicate InOrder(ascending: bool, x: LogEntry, y: LogEntry) {
    x.timestamp == y.timestamp || if ascending then Less(x.timestamp, y.timestamp) else Less(y.timestamp, x.timestamp)
  }

  lemma InOrderIsTransitive(ascending: bool, x: LogEntry, y: LogEntry, z: LogEntry)
    requires InOrder(ascending, x, y) && InOrder(ascending, y, z)
    ensures InOrder(ascending, x, z)
  {
    if x.timestamp != y.timestamp && y.timestamp != z.timestamp {
      if ascending { LessIsTransitive(x.timestamp, y.timestamp, z.timestamp); }
      else { LessIsTransitive(z.timestamp, y.timestamp, x.timestamp); }
    }
  }

  lemma NotInOrder(ascending: bool, x: LogEntry, y: LogEntry)
    ensures !InOrder(ascending, x, y) ==> InOrder(ascending, y, x) && x.timestamp != y.timestamp
  {
    LessIsTotal(x.timestamp, y.timestamp);
  }

  // ----- The sort -----

  function Insert(ascending: bool, s: seq<LogEntry>, e: LogEntry): seq<LogEntry> {
    if s == [] then [e]
    else if InOrder(ascending, s[|s| - 1], e) then s + [e]
    else Insert(ascending, s[..|s| - 1], e) + [s[|s| - 1]]
  }

  function Sort(ascending: bool, es: seq<LogEntry>): seq<LogEntry> {
    if es == [] then [] else Insert(ascending, Sort(ascending, es[..|es| - 1]), es[|es| - 1])
  }

  predicate Sorted(ascending: bool, s: seq<LogEntry>) {
    forall i, j | 0 <= i < j < |s| :: InOrder(ascending, s[i], s[j])
  }

  /** The entries of one timestamp, in their order. */
  function OfTime(s: seq<LogEntry>, t: string): seq<LogEntry> {
    if s == [] then [] else OfTime(s[..|s| - 1], t) + (if s[|s| - 1].timestamp == t then [s[|s| - 1]] else [])
  }

  lemma OfTimeOfMore(s: seq<LogEntry>, e: LogEntry, t: string)
    ensures OfTime(s + [e], t) == OfTime(s, t) + (if e.timestamp == t then [e] else [])
  {
    assert (s + [e])[..|s + [e]| - 1] == s;
  }

  lemma {:induction false} InsertIsPermutation(ascending: bool, s: seq<LogEntry>, e: LogEntry)
    ensures multiset(Insert(ascending, s, e)) == multiset(s) + multiset{e} && |Insert(ascending, s, e)| == |s| + 1
  {
    if s != [] && !InOrder(ascending, s[|s| - 1], e) {
      InsertIsPermutation(ascending, s[..|s| - 1], e);
      assert s == s[..|s| - 1] + [s[|s| - 1]];
    }
  }

  predicate AllBefore(ascending: bool, s: seq<LogEntry>, x: LogEntry) {
    forall i | 0 <= i < |s| :: InOrder(ascending, s[i], x)
  }

  lemma {:induction false} InsertBefore(ascending: bool, s: seq<LogEntry>, e: LogEntry, x: LogEntry)
    requires AllBefore(ascending, s, x) && InOrder(ascending, e, x)
    ensures AllBefore(ascending, Insert(ascending, s, e), x)
  {
    if s != [] && !InOrder(ascending, s[|s| - 1], e) { InsertBefore(ascending, s[..|s| - 1], e, x); }
  }

  lemma {:induction false} InsertIsSorted(ascending: bool, s: seq<LogEntry>, e: LogEntry)
    requires Sorted(ascending, s)
    ensures Sorted(ascending, Insert(ascending, s, e))
  {
    if s != [] {
      var init, last := s[..|s| - 1], s[|s| - 1];
      if InOrder(ascending, last, e) {
        forall i | 0 <= i < |s| ensures InOrder(ascending, s[i], e) {
          if i < |s| - 1 { InOrderIsTransitive(ascending, s[i], last, e); }
        }
      } else {
        NotInOrder(ascending, last, e);
        assert AllBefore(ascending, init, last);
        InsertBefore(ascending, init, e, last);
        InsertIsSorted(ascending, init, e);
      }
    }
  }

  lemma EmptyCommutes(x: seq<LogEntry>, a: seq<LogEntry>, b: seq<LogEntry>)
    requires a == [] || b == []
    ensures x + a + b == x + b + a
  {
  }

  function IfAt(e: LogEntry, t: string): seq<LogEntry> { if e.timestamp == t then [e] else [] }

  lemma {:induction false} InsertIsStable(ascending: bool, s: seq<LogEntry>, e: LogEntry, t: string)
    ensures OfTime(Insert(ascending, s, e), t) == OfTime(s, t) + IfAt(e, t)
  {
    if s == [] || InOrder(ascending, s[|s| - 1], e) {
      assert Insert(ascending, s, e) == s + [e];
      OfTimeOfMore(s, e, t);
    } else {
      var init, last := s[..|s| - 1], s[|s| - 1];
      NotInOrder(ascending, last, e);
      EmptyCommutes(OfTime(init, t), IfAt(e, t), IfAt(last, t));
      InsertIsStable(ascending, init, e, t);
      OfTimeOfMore(Insert(ascending, init, e), last, t);
    }
  }

  lemma {:induction false} SortKeepsTimes(ascending: bool, es: seq<LogEntry>, t: string)
    ensures OfTime(Sort(ascending, es), t) == OfTime(es, t)
  {
    if es != [] {
      SortKeepsTimes(ascending, es[..|es| - 1], t);
      InsertIsStable(ascending, Sort(ascending, es[..|es| - 1]), es[|es| - 1], t);
    }
  }

  lemma {:induction false} SortIsPermutation(ascending: bool, es: seq<LogEntry>)
    ensures Sorted(ascending, Sort(ascending, es))
    ensures multiset(Sort(ascending, es)) == multiset(es) && |Sort(ascending, es)| == |es|
  {
    if es != [] {
      var init, last := es[..|es| - 1], es[|es| - 1];
      assert es == init + [last];
      SortIsPermutation(ascending, init);
      InsertIsSorted(ascending, Sort(ascending, init), last);
      InsertIsPermutation(ascending, Sort(ascending, init), last);
    }
  }

  /** The sort orders the entries, loses and invents none, and keeps the order of equal timestamps. */
  lemma SortIsStable(ascending: bool, es: seq<LogEntry>)
    ensures Sorted(ascending, Sort(ascending, es))
    ensures multiset(Sort(ascending, es)) == multiset(es) && |Sort(ascending, es)| == |es|
    ensures forall t :: OfTime(Sort(ascending, es), t) == OfTime(es, t)
  {
    SortIsPermutation(ascending, es);
    forall t ensures OfTime(Sort(ascending, es), t) == OfTime(es, t) { SortKeepsTimes(ascending, es, t); }
  }

  // ----- Filters and the page -----

  predicate Wanted(o: Options, e: LogEntry) {
    && (o.since.Some? ==> !Less(e.timestamp, o.since.value))
    && (o.until.Some? ==> !Less(o.until.value, e.timestamp))
    && (o.level.Some? ==> e.level == o.level.value)
    && (o.operationId.Some? ==> e.operationId == o.operationId)
    && (o.tool.Some? ==> e.tool == o.tool.value)
    && (o.action.Some? ==> e.action == o.action.value)
  }

  function Filtered(o: Options, es: seq<LogEntry>): seq<LogEntry> {
    if es == [] then [] else Filtered(o, es[..|es| - 1]) + (if Wanted(o, es[|es| - 1]) then [es[|es| - 1]] else [])
  }

  lemma CountOfMore(s: seq<LogEntry>, x: LogEntry, e: LogEntry)
    ensures multiset(s + [x])[e] == multiset(s)[e] + if x == e then 1 else 0
  {
  }

  lemma {:induction false} FilterKeepsWanted(o: Options, es: seq<LogEntry>, e: LogEntry)
    ensures multiset(Filtered(o, es))[e] == if Wanted(o, e) then multiset(es)[e] else 0
    ensures |Filtered(o, es)| <= |es|
  {
    if es != [] {
      var init, last := es[..|es| - 1], es[|es| - 1];
      assert es == init + [last];
      FilterKeepsWanted(o, init, e);
      CountOfMore(init, last, e);
      if Wanted(o, last) { CountOfMore(Filtered(o, init), last, e); }
    }
  }

  /** The filters one after the other. */
  method Passes(o: Options, e: LogEntry) returns (yes: bool)
    ensures yes == Wanted(o, e)
  {
    if o.since.Some? && Less(e.timestamp, o.since.value) { return false; }
    if o.until.Some? && Less(o.until.value, e.timestamp) { return false; }
    if o.level.Some? && e.level != o.level.value { return false; }
    if o.operationId.Some? && e.operationId != o.operationId { return false; }
    if o.tool.Some? && e.tool != o.tool.value { return false; }
    if o.action.Some? && e.action != o.action.value { return false; }
    return true;
  }

  method ApplyFilters(o: Options, entries: seq<LogEntry>) returns (filtered: seq<LogEntry>)
    ensures filtered == Filtered(o, entries)
  {
    filtered := [];
    var i := 0;
    while i < |entries|
      invariant 0 <= i <= |entries| && filtered == Filtered(o, entries[..i])
    {
      assert entries[..i + 1][..i] == entries[..i];
      var wanted := Passes(o, entries[i]);
      if wanted { filtered := filtered + [entries[i]]; }
      i := i + 1;
    }
    assert entries[..|entries|] == entries;
  }

  /** The wanted entries, each as often as it occurs, sorted, with equal timestamps in source order. */
  ghost predicate Arranges(o: Options, all: seq<LogEntry>, ordered: seq<LogEntry>) {
    && Sorted(o.ascending, ordered)
    && (forall e :: multiset(ordered)[e] == if Wanted(o, e) then multiset(all)[e] else 0)
    && (forall t :: OfTime(ordered, t) == OfTime(Filtered(o, all), t))
  }

  lemma SortArranges(o: Options, all: seq<LogEntry>)
    ensures Arranges(o, all, Sort(o.ascending, Filtered(o, all)))
  {
    SortIsStable(o.ascending, Filtered(o, all));
    forall e ensures multiset(Sort(o.ascending, Filtered(o, all)))[e] == if Wanted(o, e) then multiset(all)[e] else 0 {
      FilterKeepsWanted(o, all, e);
    }
  }

  /**
  The page is a prefix, as long as the limit allows, of a sorted rearrangement of the wanted entries of
  all three sources; it is marked truncated exactly when some of them are left out.
   */
  method ReadPage(operations: seq<LogEntry>, markers: seq<LogEntry>, invocations: seq<LogEntry>, o: Options)
    returns (page: seq<LogEntry>, totalCount: nat, truncated: bool)
    ensures exists ordered ::
      Arranges(o, operations + markers + invocations, ordered) && page <= ordered && totalCount == |ordered|
    ensures |page| == if totalCount < ClampLimit(o.limit) then totalCount else ClampLimit(o.limit)
    ensures truncated <==> |page| < totalCount
  {
    var merged := operations + markers + invocations;
    var filtered := ApplyFilters(o, merged);
    var ordered := Sort(o.ascending, filtered);
    SortArranges(o, merged);
    var limit := ClampLimit(o.limit);
    page := if |ordered| < limit then ordered else ordered[..limit];
    totalCount := |ordered|;
    truncated := totalCount > |page|;
  }

  /** The sorted list runs up or down in time, as asked. */
  lemma SortFollowsTime(ascending: bool, es: seq<LogEntry>, i: nat, j: nat)
    requires i < j < |Sort(ascending, es)|
    ensures var s := Sort(ascending, es);
            if ascending then !ComesBefore(s[j].timestamp, s[i].timestamp)
            else !ComesBefore(s[i].timestamp, s[j].timestamp)
  {
    var s := Sort(ascending, es);
    SortIsStable(ascending, es);
    assert InOrder(ascending, s[i], s[j]);
    LessIsTotal(s[i].timestamp, s[j].timestamp);
    LessMeans(s[i].timestamp, s[j].timestamp);
    LessMeans(s[j].timestamp, s[i].timestamp);
  }

  /** An entry is wanted exactly if it lies between the given moments and agrees with every given field. */
  lemma WantedMeans(o: Options, e: LogEntry)
    ensures Wanted(o, e) <==>
            && !(o.since.Some? && ComesBefore(e.timestamp, o.since.value))
            && !(o.until.Some? && ComesBefore(o.until.value, e.timestamp))
            && (o.level == None || o.level == Some(e.level))
            && (o.operationId == None || o.operationId == e.operationId)
            && (o.tool == None || o.tool == Some(e.tool)) && (o.action == None || o.action == Some(e.action))
  {
    if o.since.Some? { LessMeans(e.timestamp, o.since.value); }
    if o.until.Some? { LessMeans(o.until.value, e.timestamp); }
  }
}
