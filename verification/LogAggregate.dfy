/**
Telemetry records and their aggregation: the failure class of a record, the records and tallies per
tool, and nearest-rank percentiles.
 */
module LogAggregate {
  import opened Wrappers
  import opened Arithmetic

  datatype FailureClass = NoFailure | Contract | Runtime

  datatype Record = Record(
    timestamp: string, tool: string, isError: bool, failureClass: FailureClass, durationMs: nat,
    rejectedParams: seq<string>, missingParams: seq<string>, warningCodes: seq<string>)

  // ----- The entry builder -----

  const CONTRACT_FAILURE_CODES: set<string> := {
    "CONFIRMATION_REQUIRED", "MCP_INPUT_INVALID", "MCP_TOOL_NOT_FOUND", "MCP_WRITES_DISABLED",
    "PROJECT_CONFIG_NOT_WRITE_READY", "RESULT_CONTRACT_VIOLATION"}

  predicate StartsWith(s: string, prefix: string) { prefix <= s }

  function FailureClassFor(toolKnown: bool, isError: bool, errorCode: Option<string>): FailureClass {
    if !isError then NoFailure
    else if !toolKnown then Contract
    else if errorCode.Some? && (errorCode.value in CONTRACT_FAILURE_CODES || StartsWith(errorCode.value, "CONFIG_")
                                || StartsWith(errorCode.value, "DYSFLOW_CONFIG_")) then Contract
    else Runtime
  }

  /** The error code recorded: the tool's own, a default for an unexplained error, or that the tool is unknown. */
  function ErrorCode(toolKnown: bool, isError: bool, own: Option<string>): Option<string> {
    if !toolKnown then Some("MCP_TOOL_NOT_FOUND")
    else if own.Some? then own
    else if isError then Some("MCP_TOOL_HANDLER_ERROR") else None
  }

  /** Which results count as contract failures, and which as failures at run time. */
  lemma FailureClassMeans(toolKnown: bool, isError: bool, own: Option<string>)
    ensures var code := ErrorCode(toolKnown, isError, own);
            var class' := FailureClassFor(toolKnown, isError, code);
            && (!isError ==> class' == NoFailure)
            && (isError && !toolKnown ==> class' == Contract && code == Some("MCP_TOOL_NOT_FOUND"))
            && (isError && toolKnown && own == None ==> class' == Runtime && code == Some("MCP_TOOL_HANDLER_ERROR"))
            && (isError && toolKnown && own.Some? ==>
                  && code == own
                  && (class' == Contract <==>
                      || own.value in {"CONFIRMATION_REQUIRED", "MCP_INPUT_INVALID", "MCP_TOOL_NOT_FOUND",
                                       "MCP_WRITES_DISABLED", "PROJECT_CONFIG_NOT_WRITE_READY",
                                       "RESULT_CONTRACT_VIOLATION"}
                      || (|own.value| >= 7 && own.value[..7] == "CONFIG_")
                      || (|own.value| >= 15 && own.value[..15] == "DYSFLOW_CONFIG_"))
                  && (class' != Contract ==> class' == Runtime))
  {
    if isError && toolKnown && own == None {
      var code := "MCP_TOOL_HANDLER_ERROR";
      assert code[0] == 'M' && code[4] == 'T' && code[9] == 'H';
      assert "CONFIG_"[0] == 'C' && "DYSFLOW_CONFIG_"[0] == 'D' && "CONFIRMATION_REQUIRED"[0] == 'C';
      assert |code| == 22 && code !in CONTRACT_FAILURE_CODES;
    }
  }

  /** The record was made by the entry builder from some result. */
  ghost predicate Built(r: Record) {
    exists toolKnown: bool, own: Option<string> ::
      r.failureClass == FailureClassFor(toolKnown, r.isError, ErrorCode(toolKnown, r.isError, own))
  }

  // ----- Counting -----

  function Bucket(records: seq<Record>, tool: string): seq<Record> {
    if records == [] then []
    else
      var last := records[|records| - 1];
      Bucket(records[..|records| - 1], tool) + (if last.tool == tool then [last] else [])
  }

  function Errors(rs: seq<Record>): nat {
    if rs == [] then 0 else Errors(rs[..|rs| - 1]) + (if rs[|rs| - 1].isError then 1 else 0)
  }

  function OfClass(rs: seq<Record>, c: FailureClass): nat {
    if rs == [] then 0 else OfClass(rs[..|rs| - 1], c) + (if rs[|rs| - 1].failureClass == c then 1 else 0)
  }

  function Occurrences(names: seq<string>, x: string): nat {
    if names == [] then 0 else Occurrences(names[..|names| - 1], x) + (if names[|names| - 1] == x then 1 else 0)
  }

  /** The three lists of names in a record that are tallied over all records. */
  datatype Field = RejectedParams | MissingParams | WarningCodes

  function Names(r: Record, f: Field): seq<string> {
    match f
    case RejectedParams => r.rejectedParams
    case MissingParams => r.missingParams
    case WarningCodes => r.warningCodes
  }

  function Mentions(rs: seq<Record>, f: Field, x: string): nat {
    if rs == [] then 0 else Mentions(rs[..|rs| - 1], f, x) + Occurrences(Names(rs[|rs| - 1], f), x)
  }

  function CountIn(m: map<string, nat>, x: string): nat { if x in m then m[x] else 0 }

  method Tally(counts: map<string, nat>, names: seq<string>) returns (r: map<string, nat>)
    ensures forall x :: CountIn(r, x) == CountIn(counts, x) + Occurrences(names, x)
  {
    r := counts;
    var i := 0;
    while i < |names|
      invariant 0 <= i <= |names|
      invariant forall x :: CountIn(r, x) == CountIn(counts, x) + Occurrences(names[..i], x)
    {
      assert names[..i + 1][..i] == names[..i];
      r := r[names[i] := CountIn(r, names[i]) + 1];
      i := i + 1;
    }
    assert names[..|names|] == names;
  }

  /** The tools that occur, each once, with the records of each in order. */
  ghost predicate Grouped(records: seq<Record>, tools: seq<string>, perTool: map<string, seq<Record>>) {
    && Distinct(tools)
    && (forall t :: t in tools <==> t in perTool)
    && (forall t :: (t in perTool <==> Bucket(records, t) != []) && (t in perTool ==> perTool[t] == Bucket(records, t)))
  }

  lemma BucketOfMore(records: seq<Record>, r: Record, t: string)
    ensures Bucket(records + [r], t) == Bucket(records, t) + if r.tool == t then [r] else []
  {
    assert (records + [r])[..|records + [r]| - 1] == records;
  }

  lemma GroupOneMore(records: seq<Record>, r: Record, tools: seq<string>, perTool: map<string, seq<Record>>)
    requires Grouped(records, tools, perTool)
    ensures Grouped(records + [r], if r.tool in perTool then tools else tools + [r.tool],
                    perTool[r.tool := (if r.tool in perTool then perTool[r.tool] else []) + [r]])
  {
    var all, tools', bucket := records + [r], if r.tool in perTool then tools else tools + [r.tool],
      (if r.tool in perTool then perTool[r.tool] else []) + [r];
    var perTool' := perTool[r.tool := bucket];
    assert Distinct(tools') && forall t :: t in tools' <==> t in perTool';
    forall t ensures (t in perTool' <==> Bucket(all, t) != []) && (t in perTool' ==> perTool'[t] == Bucket(all, t)) {
      BucketOfMore(records, r, t);
    }
  }

  /** Each name is counted as often as the records mention it. */
  ghost predicate Counted(records: seq<Record>, f: Field, counts: map<string, nat>) {
    forall x :: CountIn(counts, x) == Mentions(records, f, x)
  }

  lemma TakeOneMore(records: seq<Record>, i: nat)
    requires i < |records|
    ensures records[..i + 1] == records[..i] + [records[i]]
  {
  }

  lemma TakeAll(records: seq<Record>)
    ensures records[..|records|] == records
  {
  }

  lemma CountOneMore(records: seq<Record>, r: Record, f: Field, before: map<string, nat>, after: map<string, nat>)
    requires Counted(records, f, before)
    requires forall x :: CountIn(after, x) == CountIn(before, x) + Occurrences(Names(r, f), x)
    ensures Counted(records + [r], f, after)
  {
    assert (records + [r])[..|records + [r]| - 1] == records;
  }

  /** Adds the names of one more record to a tally. */
  method CountRecord(ghost records: seq<Record>, r: Record, f: Field, counts: map<string, nat>)
    returns (after: map<string, nat>)
    requires Counted(records, f, counts)
    ensures Counted(records + [r], f, after)
  {
    after := Tally(counts, Names(r, f));
    CountOneMore(records, r, f, counts, after);
  }

  /** One pass over the records fills the buckets and tallies rejected and missing parameters and warning codes. */
  method GroupByTool(records: seq<Record>)
    returns (tools: seq<string>, perTool: map<string, seq<Record>>,
             rejected: map<string, nat>, missing: map<string, nat>, warnings: map<string, nat>)
    ensures Grouped(records, tools, perTool)
    ensures Counted(records, RejectedParams, rejected)
    ensures Counted(records, MissingParams, missing)
    ensures Counted(records, WarningCodes, warnings)
  {
    tools, perTool, rejected, missing, warnings := [], map[], map[], map[], map[];
    var i := 0;
    while i < |records|
      invariant 0 <= i <= |records|
      invariant Grouped(records[..i], tools, perTool)
      invariant Counted(records[..i], RejectedParams, rejected)
      invariant Counted(records[..i], MissingParams, missing)
      invariant Counted(records[..i], WarningCodes, warnings)
    {
      var r := records[i];
      TakeOneMore(records, i);
      GroupOneMore(records[..i], r, tools, perTool);
      var bucket := if r.tool in perTool then perTool[r.tool] else [];
      if r.tool !in perTool { tools := tools + [r.tool]; }
      perTool := perTool[r.tool := bucket + [r]];
      rejected := CountRecord(records[..i], r, RejectedParams, rejected);
      missing := CountRecord(records[..i], r, MissingParams, missing);
      warnings := CountRecord(records[..i], r, WarningCodes, warnings);
      i := i + 1;
    }
    TakeAll(records);
  }

  function TotalCalls(records: seq<Record>, tools: seq<string>): nat {
    if tools == [] then 0 else TotalCalls(records, tools[..|tools| - 1]) + |Bucket(records, tools[|tools| - 1])|
  }

  lemma {:induction false} TotalOfMore(records: seq<Record>, r: Record, tools: seq<string>)
    requires Distinct(tools)
    ensures TotalCalls(records + [r], tools) == TotalCalls(records, tools) + (if r.tool in tools then 1 else 0)
  {
    if tools != [] {
      var init, last := tools[..|tools| - 1], tools[|tools| - 1];
      TotalOfMore(records, r, init);
      assert (records + [r])[..|records + [r]| - 1] == records;
      assert tools == init + [last];
      assert last !in init;
    }
  }

  /** Whatever the records, the calls of the tools that occur add up to the number of records. */
  lemma {:induction false} CallsSumToRecords(records: seq<Record>, tools: seq<string>)
    requires Distinct(tools) && forall r | r in records :: r.tool in tools
    ensures TotalCalls(records, tools) == |records|
  {
    if records == [] {
      NoCalls(tools);
    } else {
      var init, last := records[..|records| - 1], records[|records| - 1];
      CallsSumToRecords(init, tools);
      TotalOfMore(init, last, tools);
      assert records == init + [last];
    }
  }

  function CallsIn(tools: seq<string>, perTool: map<string, seq<Record>>): nat
    requires forall t | t in tools :: t in perTool
  {
    if tools == [] then 0 else CallsIn(tools[..|tools| - 1], perTool) + |perTool[tools[|tools| - 1]]|
  }

  lemma {:induction false} CallsInBuckets(records: seq<Record>, tools: seq<string>, perTool: map<string, seq<Record>>)
    requires forall t | t in tools :: t in perTool && perTool[t] == Bucket(records, t)
    ensures CallsIn(tools, perTool) == TotalCalls(records, tools)
  {
    if tools != [] { CallsInBuckets(records, tools[..|tools| - 1], perTool); }
  }

  /** The reported calls, summed over the tools that the grouping found, are the number of records. */
  lemma GroupedCallsSum(records: seq<Record>, tools: seq<string>, perTool: map<string, seq<Record>>)
    requires Grouped(records, tools, perTool)
    ensures CallsIn(tools, perTool) == |records|
  {
    forall r | r in records ensures r.tool in tools {
      InBucket(records, r.tool, r);
      assert r.tool in perTool;
    }
    CallsInBuckets(records, tools, perTool);
    CallsSumToRecords(records, tools);
  }

  lemma {:induction false} NoCalls(tools: seq<string>)
    ensures TotalCalls([], tools) == 0
  {
    if tools != [] { NoCalls(tools[..|tools| - 1]); }
  }

  lemma {:induction false} InBucket(records: seq<Record>, tool: string, r: Record)
    ensures r in Bucket(records, tool) <==> r in records && r.tool == tool
  {
    if records != [] {
      InBucket(records[..|records| - 1], tool, r);
      assert records == records[..|records| - 1] + [records[|records| - 1]];
    }
  }

  /** For records made by the entry builder, the errors of a tool split into contract and runtime errors. */
  lemma {:induction false} ErrorsSplit(rs: seq<Record>)
    requires forall r | r in rs :: Built(r)
    ensures Errors(rs) == OfClass(rs, Contract) + OfClass(rs, Runtime)
    ensures OfClass(rs, NoFailure) == |rs| - Errors(rs)
  {
    if rs != [] {
      ErrorsSplit(rs[..|rs| - 1]);
      assert Built(rs[|rs| - 1]);
    }
  }

  // ----- Percentiles -----

  function InsertNum(x: int, s: seq<int>): seq<int> {
    if s == [] then [x] else if x <= s[0] then [x] + s else [s[0]] + InsertNum(x, s[1..])
  }

  function SortNums(s: seq<int>): seq<int> {
    if s == [] then [] else InsertNum(s[|s| - 1], SortNums(s[..|s| - 1]))
  }

  predicate Ascending(s: seq<int>) { forall i, j | 0 <= i < j < |s| :: s[i] <= s[j] }

  /** How many of the values are at most `v`. */
  function AtMost(s: seq<int>, v: int): nat {
    if s == [] then 0 else (if s[0] <= v then 1 else 0) + AtMost(s[1..], v)
  }

  function Below(s: seq<int>, v: int): nat { AtMost(s, v - 1) }

  lemma {:induction false} InsertIsPermutation(x: int, s: seq<int>)
    ensures multiset(InsertNum(x, s)) == multiset(s) + multiset{x} && |InsertNum(x, s)| == |s| + 1
  {
    if s != [] && x > s[0] {
      InsertIsPermutation(x, s[1..]);
      assert s == [s[0]] + s[1..];
    }
  }

  predicate AllAtLeast(s: seq<int>, b: int) { forall i | 0 <= i < |s| :: s[i] >= b }

  lemma {:induction false} InsertAtLeast(x: int, s: seq<int>, b: int)
    requires b <= x && AllAtLeast(s, b)
    ensures AllAtLeast(InsertNum(x, s), b)
  {
    if s != [] && x > s[0] { InsertAtLeast(x, s[1..], b); }
  }

  lemma {:induction false} InsertIsSorted(x: int, s: seq<int>)
    requires Ascending(s)
    ensures Ascending(InsertNum(x, s))
  {
    if s != [] && x > s[0] {
      assert AllAtLeast(s[1..], s[0]);
      InsertAtLeast(x, s[1..], s[0]);
      InsertIsSorted(x, s[1..]);
    }
  }

  lemma {:induction false} InsertCounts(x: int, s: seq<int>, v: int)
    ensures AtMost(InsertNum(x, s), v) == AtMost(s, v) + (if x <= v then 1 else 0)
  {
    if s != [] && x > s[0] {
      InsertCounts(x, s[1..], v);
      var t := InsertNum(x, s);
      assert t[0] == s[0] && t[1..] == InsertNum(x, s[1..]);
    } else {
      var t := InsertNum(x, s);
      assert t[0] == x && t[1..] == s;
    }
  }

  lemma {:induction false} SortIsRight(s: seq<int>)
    ensures Ascending(SortNums(s)) && |SortNums(s)| == |s| && multiset(SortNums(s)) == multiset(s)
  {
    if s != [] {
      SortIsRight(s[..|s| - 1]);
      InsertIsSorted(s[|s| - 1], SortNums(s[..|s| - 1]));
      InsertIsPermutation(s[|s| - 1], SortNums(s[..|s| - 1]));
      assert s == s[..|s| - 1] + [s[|s| - 1]];
    }
  }

  lemma {:induction false} CountsOfConcat(a: seq<int>, b: seq<int>, v: int)
    ensures AtMost(a + b, v) == AtMost(a, v) + AtMost(b, v)
  {
    if a == [] {
      assert a + b == b;
    } else {
      CountsOfConcat(a[1..], b, v);
      assert (a + b)[1..] == a[1..] + b;
    }
  }

  lemma {:induction false} SortCounts(s: seq<int>, v: int)
    ensures AtMost(SortNums(s), v) == AtMost(s, v)
  {
    if s != [] {
      var init, last := s[..|s| - 1], s[|s| - 1];
      SortCounts(init, v);
      InsertCounts(last, SortNums(init), v);
      CountsOfConcat(init, [last], v);
      assert s == init + [last];
    }
  }

  lemma {:induction false} AllAtMost(s: seq<int>, v: int)
    ensures (forall i | 0 <= i < |s| :: s[i] <= v) ==> AtMost(s, v) == |s|
    ensures (forall i | 0 <= i < |s| :: s[i] > v) ==> AtMost(s, v) == 0
    ensures AtMost(s, v) <= |s|
  {
    if s != [] { AllAtMost(s[1..], v); }
  }

  /** The rank of the ratio p/q among n values: the ceiling of n * p / q, and at least one. */
  function Rank(n: nat, p: nat, q: nat): (k: nat)
    requires n > 0 && 0 < p <= q
    ensures 1 <= k <= n
  {
    RankBounds(n, p, q);
    (n * p + q - 1) / q
  }

  lemma RankBounds(n: nat, p: nat, q: nat)
    requires n > 0 && 0 < p <= q
    ensures 1 <= (n * p + q - 1) / q <= n
  {
    var x := n * p + q - 1;
    assert n * p >= p by { MulIsMonotone(1, n, p); }
    QuotientIsMonotone(q, x, q);
    DivisionIsUnique(q, 1, 0, q);
    assert n * p <= n * q by { MulIsMonotone(p, q, n); }
    QuotientIsMonotone(x, n * q + q - 1, q);
    DivisionIsUnique(n * q + q - 1, n, q - 1, q);
  }

  /** The value of rank `k` in ascending order. */
  function AtRank(values: seq<int>, k: nat): int
    requires 1 <= k <= |values|
  {
    SortIsRight(values);
    SortNums(values)[k - 1]
  }

  /** The rank is the ceiling: the least count that makes up the ratio. */
  lemma RankIsCeiling(n: nat, p: nat, q: nat)
    requires n > 0 && 0 < p <= q
    ensures (Rank(n, p, q) - 1) * q < n * p <= Rank(n, p, q) * q
  {
    var x, k := n * p + q - 1, Rank(n, p, q);
    assert x == q * k + x % q;
    assert (k - 1) * q == q * k - q;
  }

  function Percentile(values: seq<int>, p: nat, q: nat): int
    requires 0 < p <= q
  {
    if values == [] then 0 else AtRank(values, Rank(|values|, p, q))
  }

  /**
  The percentile is the nearest-rank value: one of the values, with at least the rank's number of values
  at or below it and fewer than that strictly below it.
   */
  lemma PercentileIsNearestRank(values: seq<int>, p: nat, q: nat)
    requires values != [] && 0 < p <= q
    ensures var v, k := Percentile(values, p, q), Rank(|values|, p, q);
            v in values && AtMost(values, v) >= k && Below(values, v) < k
  {
    NearestRank(values, Rank(|values|, p, q));
  }

  lemma NearestRank(values: seq<int>, k: nat)
    requires 1 <= k <= |values|
    ensures AtRank(values, k) in values
    ensures AtMost(values, AtRank(values, k)) >= k && Below(values, AtRank(values, k)) < k
  {
    RankIsAmong(values, k);
    RankReached(values, k);
    RankNotExceeded(values, k);
  }

  lemma RankIsAmong(values: seq<int>, k: nat)
    requires 1 <= k <= |values|
    ensures AtRank(values, k) in values
  {
    SortIsRight(values);
    SortedIsAmong(values, k - 1);
  }

  lemma RankReached(values: seq<int>, k: nat)
    requires 1 <= k <= |values|
    ensures AtMost(values, AtRank(values, k)) >= k
  {
    SortIsRight(values);
    CountsInSorted(SortNums(values), k);
    SortCounts(values, AtRank(values, k));
  }

  lemma RankNotExceeded(values: seq<int>, k: nat)
    requires 1 <= k <= |values|
    ensures Below(values, AtRank(values, k)) < k
  {
    SortIsRight(values);
    CountsInSorted(SortNums(values), k);
    SortBelow(values, AtRank(values, k));
  }

  lemma SortBelow(values: seq<int>, v: int)
    ensures Below(SortNums(values), v) == Below(values, v)
  {
    SortCounts(values, v - 1);
  }

  lemma SortedIsAmong(values: seq<int>, i: nat)
    requires i < |SortNums(values)|
    ensures SortNums(values)[i] in values
  {
    SortIsRight(values);
    assert SortNums(values)[i] in multiset(SortNums(values));
  }

  lemma CountsInSorted(s: seq<int>, k: nat)
    requires Ascending(s) && 1 <= k <= |s|
    ensures AtMost(s, s[k - 1]) >= k && Below(s, s[k - 1]) < k
  {
    CountsAround(s, k, s[k - 1]);
    CountsAround(s, k - 1, s[k - 1] - 1);
  }

  /** How the count relates to n when the first n values are at most `v`, or the others exceed it. */
  lemma CountsAround(s: seq<int>, n: nat, v: int)
    requires n <= |s|
    ensures (forall i | 0 <= i < n :: s[i] <= v) ==> AtMost(s, v) >= n
    ensures (forall i | n <= i < |s| :: s[i] > v) ==> AtMost(s, v) <= n
  {
    var front, back := s[..n], s[n..];
    assert s == front + back;
    CountsOfConcat(front, back, v);
    AllAtMost(front, v);
    AllAtMost(back, v);
  }

  /** A larger ratio never gives a smaller percentile; in particular p50 is at most p95. */
  lemma PercentilesAreMonotone(values: seq<int>, p1: nat, p2: nat, q: nat)
    requires 0 < p1 <= p2 <= q
    ensures Percentile(values, p1, q) <= Percentile(values, p2, q)
  {
    if values != [] {
      SortIsRight(values);
      RankIsMonotone(|values|, p1, p2, q);
    }
  }

  lemma RankIsMonotone(n: nat, p1: nat, p2: nat, q: nat)
    requires n > 0 && 0 < p1 <= p2 <= q
    ensures Rank(n, p1, q) <= Rank(n, p2, q)
  {
    assert n * p1 <= n * p2 by { MulIsMonotone(p1, p2, n); }
    QuotientIsMonotone(n * p1 + q - 1, n * p2 + q - 1, q);
  }
}
