/**
 * The server's monitoring service: two capped logs (request metrics and errors), the
 * statistics over the last hour, the most recent errors and the per-endpoint breakdown.
 * Time is milliseconds since the epoch, passed in as `now`; averages and rates, which the
 * service rounds from floating point, are represented by the integer sums and counts they
 * are computed from.
 */
module Monitoring {
  import opened Wrappers
  import opened Seqs

  const MaxMetrics: nat := 1000
  const MaxErrors: nat := 500
  /** The statistics window: one hour. */
  const WindowMs: int := 60 * 60 * 1000
  /** A request is slow when it took strictly longer than one second. */
  const SlowMs: int := 1000
  const RecentErrorsDefault: int := 10

  datatype Metric = Metric(
    endpoint: string,
    httpMethod: string,
    duration: int,
    statusCode: int,
    timestamp: int,
    userId: Option<string>)

  datatype ErrorLog = ErrorLog(
    message: string,
    stack: Option<string>,
    endpoint: string,
    httpMethod: string,
    userId: Option<string>,
    timestamp: int,
    statusCode: int)

  /** An error as `getRecentErrors` reports it: everything but the stack trace. */
  datatype ErrorView = ErrorView(
    message: string,
    endpoint: string,
    httpMethod: string,
    timestamp: int,
    statusCode: int,
    userId: Option<string>)

  /** The last `min(cap, |h|)` elements of `h`, in their original order. */
  function Latest<T>(h: seq<T>, cap: nat): (r: seq<T>)
    ensures |r| == if |h| < cap then |h| else cap
    ensures r == h[|h| - |r|..]
  {
    if |h| <= cap then h else h[|h| - cap..]
  }

  /** Pushing onto a log that holds the latest `cap` entries, then shifting once if it overflows, keeps the latest `cap`. */
  lemma PushShiftKeepsLatest<T>(h: seq<T>, x: T, cap: nat)
    requires cap > 0
    ensures var pushed := Latest(h, cap) + [x];
      Latest(h + [x], cap) == if |pushed| > cap then pushed[1..] else pushed
  {
    var pushed := Latest(h, cap) + [x];
    var h' := h + [x];
    if |h| < cap {
      assert Latest(h', cap) == h';
    } else {
      assert |pushed| == cap + 1;
      assert Latest(h', cap) == pushed[1..];
    }
  }

  class MonitoringService {
    var metrics: seq<Metric>
    var errors: seq<ErrorLog>
    /** Every metric and every error ever recorded, oldest first. */
    ghost var metricHistory: seq<Metric>
    ghost var errorHistory: seq<ErrorLog>

    /** Each log holds exactly the most recent entries of its history, up to its cap. */
    ghost predicate Valid()
      reads this
    {
      && metrics == Latest(metricHistory, MaxMetrics)
      && errors == Latest(errorHistory, MaxErrors)
    }

    constructor()
      ensures Valid()
      ensures metrics == [] && errors == []
      ensures metricHistory == [] && errorHistory == []
    {
      metrics := [];
      errors := [];
      metricHistory := [];
      errorHistory := [];
    }

    /** `addMetric`: push, then drop the oldest entry when the log exceeds 1000 entries. */
    method AddMetric(metric: Metric)
      requires Valid()
      modifies this
      ensures Valid()
      ensures metricHistory == old(metricHistory) + [metric]
      ensures errors == old(errors) && errorHistory == old(errorHistory)
      ensures |metrics| <= MaxMetrics && metrics[|metrics| - 1] == metric
    {
      PushShiftKeepsLatest(metricHistory, metric, MaxMetrics);
      metrics := metrics + [metric];
      if |metrics| > MaxMetrics {
        metrics := metrics[1..];
      }
      metricHistory := metricHistory + [metric];
    }

    /** `addError`: push, then drop the oldest entry when the log exceeds 500 entries. */
    method AddError(error: ErrorLog)
      requires Valid()
      modifies this
      ensures Valid()
      ensures errorHistory == old(errorHistory) + [error]
      ensures metrics == old(metrics) && metricHistory == old(metricHistory)
      ensures |errors| <= MaxErrors && errors[|errors| - 1] == error
    {
      PushShiftKeepsLatest(errorHistory, error, MaxErrors);
      errors := errors + [error];
      if |errors| > MaxErrors {
        errors := errors[1..];
      }
      errorHistory := errorHistory + [error];
    }

    /** `getPerformanceStats()`. */
    function GetPerformanceStats(now: int): (r: Stats)
      reads this
      ensures r == PerformanceStats(metrics, now)
    {
      PerformanceStats(metrics, now)
    }

    /** `getRecentErrors(limit)`. */
    function GetRecentErrors(limit: int := RecentErrorsDefault): (r: seq<ErrorView>)
      reads this
      ensures r == RecentErrors(errors, limit)
    {
      RecentErrors(errors, limit)
    }

    /** `getEndpointStats()`: tallies the last hour's metrics per "METHOD path" key, then sorts. */
    method GetEndpointStats(now: int) returns (report: seq<EndpointRow>)
      ensures report == EndpointReport(metrics, now)
    {
      var recent := Recent(metrics, now);
      var stats: map<string, Tally> := map[];
      var order: seq<string> := [];
      var i := 0;
      RepresentsEmpty(recent);
      while i < |recent|
        invariant 0 <= i <= |recent|
        invariant Represents(stats, order, Grouped(recent[..i]))
      {
        var metric := recent[i];
        var key := KeyOf(metric);
        var existing := if key in stats then stats[key] else Tally(0, 0, 0);
        existing := Bump(existing, metric);
        GroupedStep(stats, order, recent, i);
        if key !in stats {
          order := order + [key];
        }
        stats := stats[key := existing];
        i := i + 1;
      }
      var rows := RowsOf(stats, order);
      RowsOfRepresents(stats, order, recent);
      report := SortBy(rows, ByCountDesc);
    }
  }

  /** Metrics strictly newer than one hour before `now`. */
  predicate InWindow(m: Metric, now: int)
  {
    m.timestamp > now - WindowMs
  }

  function Recent(ms: seq<Metric>, now: int): (r: seq<Metric>)
    ensures |r| <= |ms|
    ensures forall m :: m in r <==> m in ms && InWindow(m, now)
  {
    Filter(ms, (m: Metric) => InWindow(m, now))
  }

  predicate IsError(m: Metric)
  {
    m.statusCode >= 400
  }

  predicate IsSlow(m: Metric)
  {
    m.duration > SlowMs
  }

  function TotalDuration(ms: seq<Metric>): int
  {
    if ms == [] then 0 else TotalDuration(ms[..|ms| - 1]) + ms[|ms| - 1].duration
  }

  /**
   * The integer content of `getPerformanceStats`: the number of requests in the window, the
   * error and slow counts, and the duration total the average is taken from.
   */
  datatype Stats = Stats(totalRequests: nat, errorRequests: nat, slowRequests: nat, totalDuration: int)

  function PerformanceStats(ms: seq<Metric>, now: int): (r: Stats)
    ensures r.totalRequests == |Recent(ms, now)|
    ensures r.errorRequests <= r.totalRequests && r.slowRequests <= r.totalRequests
    ensures r.totalRequests == 0 ==> r == Stats(0, 0, 0, 0)
  {
    var recent := Recent(ms, now);
    if |recent| == 0 then Stats(0, 0, 0, 0)
    else Stats(|recent|, Count(recent, IsError), Count(recent, IsSlow), TotalDuration(recent))
  }

  /** A metric outside the window does not change the statistics. */
  lemma StaleMetricIgnored(ms: seq<Metric>, m: Metric, now: int)
    requires !InWindow(m, now)
    ensures PerformanceStats(ms + [m], now) == PerformanceStats(ms, now)
  {
    var p := (x: Metric) => InWindow(x, now);
    FilterConcat(ms, [m], p);
    assert Filter([m], p) == [];
    assert Recent(ms + [m], now) == Recent(ms, now);
  }

  /** A metric inside the window adds one request, and one error or slow request when it is one. */
  lemma FreshMetricCounted(ms: seq<Metric>, m: Metric, now: int)
    requires InWindow(m, now)
    ensures var before := PerformanceStats(ms, now);
      var after := PerformanceStats(ms + [m], now);
      && after.totalRequests == before.totalRequests + 1
      && after.errorRequests == before.errorRequests + (if IsError(m) then 1 else 0)
      && after.slowRequests == before.slowRequests + (if IsSlow(m) then 1 else 0)
  {
    var p := (x: Metric) => InWindow(x, now);
    FilterConcat(ms, [m], p);
    assert Filter([m], p) == [m] by {
      assert [m][..0] == [];
    }
    var recent := Recent(ms, now);
    assert Recent(ms + [m], now) == recent + [m];
    CountSnoc(recent, m, IsError);
    CountSnoc(recent, m, IsSlow);
  }

  function ViewOf(e: ErrorLog): ErrorView
  {
    ErrorView(e.message, e.endpoint, e.httpMethod, e.timestamp, e.statusCode, e.userId)
  }

  /** Where JavaScript's `slice(-limit)` starts on a sequence of length `len`. */
  function SliceStart(len: nat, limit: int): (k: nat)
    ensures k <= len
  {
    var start := -limit;
    if start < 0 then (if len + start < 0 then 0 else len + start)
    else if start < len then start else len
  }

  /** `errors.slice(-limit).reverse()`, each error without its stack. */
  function RecentErrors(errors: seq<ErrorLog>, limit: int): (r: seq<ErrorView>)
    ensures |r| == |errors| - SliceStart(|errors|, limit)
  {
    var tail := errors[SliceStart(|errors|, limit)..];
    seq(|tail|, i requires 0 <= i < |tail| => ViewOf(tail[|tail| - 1 - i]))
  }

  /** For a positive limit: the last min(limit, n) errors, newest first. */
  lemma RecentErrorsNewestFirst(errors: seq<ErrorLog>, limit: int)
    requires limit >= 1
    ensures var r := RecentErrors(errors, limit);
      && |r| == (if limit < |errors| then limit else |errors|)
      && forall i :: 0 <= i < |r| ==> r[i] == ViewOf(errors[|errors| - 1 - i])
  {
  }

  /** A limit of 0 is `slice(-0)`, the whole log: every error is returned, newest first. */
  lemma RecentErrorsZeroLimit(errors: seq<ErrorLog>)
    ensures var r := RecentErrors(errors, 0);
      && |r| == |errors|
      && forall i :: 0 <= i < |r| ==> r[i] == ViewOf(errors[|errors| - 1 - i])
  {
  }

  /** The running totals kept per endpoint key. */
  datatype Tally = Tally(count: nat, totalTime: int, errors: nat)

  /** One row of `getEndpointStats`; the rounded average and rate derive from these integers. */
  datatype EndpointRow = EndpointRow(endpoint: string, requestCount: nat, totalTime: int, errorCount: nat)

  function KeyOf(m: Metric): string
  {
    m.httpMethod + " " + m.endpoint
  }

  function RowOf(key: string, t: Tally): EndpointRow
  {
    EndpointRow(key, t.count, t.totalTime, t.errors)
  }

  function Counted(row: EndpointRow, m: Metric): EndpointRow
  {
    EndpointRow(row.endpoint, row.requestCount + 1, row.totalTime + m.duration,
      row.errorCount + (if IsError(m) then 1 else 0))
  }

  /** Position of the row for `key`, or -1. */
  function IndexOfKey(rows: seq<EndpointRow>, key: string): (i: int)
    ensures -1 <= i < |rows|
    ensures i >= 0 ==> rows[i].endpoint == key
    ensures i < 0 ==> forall j :: 0 <= j < |rows| ==> rows[j].endpoint != key
  {
    if rows == [] then -1
    else if rows[|rows| - 1].endpoint == key then |rows| - 1
    else IndexOfKey(rows[..|rows| - 1], key)
  }

  /** Tallies one metric into rows kept in first-seen order, the order a JavaScript Map iterates in. */
  function AddToRows(rows: seq<EndpointRow>, m: Metric): seq<EndpointRow>
  {
    var i := IndexOfKey(rows, KeyOf(m));
    if i < 0 then rows + [Counted(EndpointRow(KeyOf(m), 0, 0, 0), m)]
    else rows[i := Counted(rows[i], m)]
  }

  /** The rows the tally loop builds from `ms`, before sorting; no row counts more errors than requests. */
  function Grouped(ms: seq<Metric>): (r: seq<EndpointRow>)
    ensures forall i :: 0 <= i < |r| ==> 1 <= r[i].requestCount && r[i].errorCount <= r[i].requestCount
  {
    if ms == [] then [] else AddToRows(Grouped(ms[..|ms| - 1]), ms[|ms| - 1])
  }

  function EndpointOf(row: EndpointRow): string
  {
    row.endpoint
  }

  /** The endpoint keys that have a row. */
  function Keys(rows: seq<EndpointRow>): set<string>
  {
    set i | 0 <= i < |rows| :: rows[i].endpoint
  }

  /** The endpoint keys of the metrics `ms`. */
  function SeenKeys(ms: seq<Metric>): set<string>
  {
    set m | m in ms :: KeyOf(m)
  }

  lemma AddToRowsKeys(rows: seq<EndpointRow>, m: Metric)
    ensures Keys(AddToRows(rows, m)) == Keys(rows) + {KeyOf(m)}
  {
    var r := AddToRows(rows, m);
    var i := IndexOfKey(rows, KeyOf(m));
    if i < 0 {
      assert r[|rows|].endpoint == KeyOf(m);
      forall k | k in Keys(rows) ensures k in Keys(r) {
        var j :| 0 <= j < |rows| && rows[j].endpoint == k;
        assert r[j].endpoint == k;
      }
    } else {
      assert forall j :: 0 <= j < |r| ==> r[j].endpoint == rows[j].endpoint;
    }
  }

  lemma AddToRowsDistinct(rows: seq<EndpointRow>, m: Metric)
    requires DistinctBy(rows, EndpointOf)
    ensures DistinctBy(AddToRows(rows, m), EndpointOf)
  {
  }

  lemma SeenKeysSnoc(front: seq<Metric>, m: Metric)
    ensures SeenKeys(front + [m]) == SeenKeys(front) + {KeyOf(m)}
  {
  }

  /** The rows' keys are exactly the keys of the metrics. */
  lemma {:induction false} GroupedKeys(ms: seq<Metric>)
    ensures Keys(Grouped(ms)) == SeenKeys(ms)
    decreases |ms|
  {
    if ms != [] {
      var front := ms[..|ms| - 1];
      var m := ms[|ms| - 1];
      GroupedKeys(front);
      AddToRowsKeys(Grouped(front), m);
      assert ms == front + [m];
      SeenKeysSnoc(front, m);
    }
  }

  /** No two rows share a key. */
  lemma {:induction false} GroupedDistinct(ms: seq<Metric>)
    ensures DistinctBy(Grouped(ms), EndpointOf)
    decreases |ms|
  {
    if ms != [] {
      GroupedDistinct(ms[..|ms| - 1]);
      AddToRowsDistinct(Grouped(ms[..|ms| - 1]), ms[|ms| - 1]);
    }
  }

  /** The comparator `(a, b) => b.requestCount - a.requestCount`, as "a may come before b". */
  predicate ByCountDesc(a: EndpointRow, b: EndpointRow)
  {
    a.requestCount >= b.requestCount
  }

  /** What `getEndpointStats` returns for the log `ms` at time `now`. */
  function EndpointReport(ms: seq<Metric>, now: int): seq<EndpointRow>
  {
    SortBy(Grouped(Recent(ms, now)), ByCountDesc)
  }

  /** The map and its key order, as the loop keeps them, read as the rows of `Grouped`. */
  ghost predicate Represents(stats: map<string, Tally>, order: seq<string>, rows: seq<EndpointRow>)
  {
    && |order| == |rows|
    && (forall j :: 0 <= j < |rows| ==>
          order[j] == rows[j].endpoint && order[j] in stats && RowOf(order[j], stats[order[j]]) == rows[j])
    && stats.Keys == Keys(rows)
  }

  /** Tallying `m` into the running totals, as the loop body does. */
  function Bump(prev: Tally, m: Metric): Tally
  {
    Tally(prev.count + 1, prev.totalTime + m.duration, prev.errors + (if IsError(m) then 1 else 0))
  }

  lemma RepresentsEmpty(ms: seq<Metric>)
    ensures Represents(map[], [], Grouped(ms[..0]))
  {
    assert ms[..0] == [];
  }

  /** The rows of the map, in its key order. */
  function RowsOf(stats: map<string, Tally>, order: seq<string>): (r: seq<EndpointRow>)
    requires forall j :: 0 <= j < |order| ==> order[j] in stats
    ensures |r| == |order|
    ensures forall j :: 0 <= j < |order| ==> r[j] == RowOf(order[j], stats[order[j]])
  {
    seq(|order|, j requires 0 <= j < |order| => RowOf(order[j], stats[order[j]]))
  }

  lemma RowsOfRepresents(stats: map<string, Tally>, order: seq<string>, ms: seq<Metric>)
    requires Represents(stats, order, Grouped(ms[..|ms|]))
    ensures forall j :: 0 <= j < |order| ==> order[j] in stats
    ensures RowsOf(stats, order) == Grouped(ms)
  {
    assert ms[..|ms|] == ms;
  }

  /** One pass of the tally loop body keeps `Represents`. */
  lemma GroupedStep(stats: map<string, Tally>, order: seq<string>, ms: seq<Metric>, n: nat)
    requires n < |ms|
    requires Represents(stats, order, Grouped(ms[..n]))
    ensures var key := KeyOf(ms[n]);
      Represents(stats[key := Bump(if key in stats then stats[key] else Tally(0, 0, 0), ms[n])],
        if key in stats then order else order + [key], Grouped(ms[..n + 1]))
  {
    var m := ms[n];
    var key := KeyOf(m);
    var g := Grouped(ms[..n]);
    assert ms[..n + 1][..n] == ms[..n];
    assert Grouped(ms[..n + 1]) == AddToRows(g, m);
    GroupedKeys(ms[..n]);
    GroupedDistinct(ms[..n]);
    var i := IndexOfKey(g, key);
    if i >= 0 {
      assert key in Keys(g);
      KnownKeyStep(stats, order, g, m, i);
    } else {
      assert key !in Keys(g);
      NewKeyStep(stats, order, g, m);
    }
  }

  lemma NewKeyStep(stats: map<string, Tally>, order: seq<string>, g: seq<EndpointRow>, m: Metric)
    requires Represents(stats, order, g)
    requires KeyOf(m) !in stats
    ensures Represents(stats[KeyOf(m) := Bump(Tally(0, 0, 0), m)], order + [KeyOf(m)],
      g + [Counted(EndpointRow(KeyOf(m), 0, 0, 0), m)])
  {
    var key := KeyOf(m);
    var stats' := stats[key := Bump(Tally(0, 0, 0), m)];
    var order' := order + [key];
    var g' := g + [Counted(EndpointRow(key, 0, 0, 0), m)];
    forall j | 0 <= j < |g'|
      ensures order'[j] == g'[j].endpoint && order'[j] in stats' && RowOf(order'[j], stats'[order'[j]]) == g'[j]
    {
      if j < |g| {
        assert order[j] in stats;
        assert order'[j] == order[j] != key;
      }
    }
    assert Keys(g') == Keys(g) + {key} by {
      assert g'[|g|].endpoint == key;
      forall k | k in Keys(g) ensures k in Keys(g') {
        var j :| 0 <= j < |g| && g[j].endpoint == k;
        assert g'[j].endpoint == k;
      }
    }
  }

  lemma KnownKeyStep(stats: map<string, Tally>, order: seq<string>, g: seq<EndpointRow>, m: Metric, i: int)
    requires Represents(stats, order, g)
    requires DistinctBy(g, EndpointOf)
    requires 0 <= i < |g| && g[i].endpoint == KeyOf(m)
    ensures KeyOf(m) in stats
    ensures Represents(stats[KeyOf(m) := Bump(stats[KeyOf(m)], m)], order, g[i := Counted(g[i], m)])
  {
    var key := KeyOf(m);
    assert order[i] == key;
    var stats' := stats[key := Bump(stats[key], m)];
    var g' := g[i := Counted(g[i], m)];
    forall j | 0 <= j < |g'|
      ensures order[j] == g'[j].endpoint && order[j] in stats' && RowOf(order[j], stats'[order[j]]) == g'[j]
    {
      if j != i {
        assert EndpointOf(g[j]) != EndpointOf(g[i]);
      }
    }
    assert Keys(g') == Keys(g) by {
      assert forall j :: 0 <= j < |g| ==> g'[j].endpoint == g[j].endpoint;
    }
  }

  lemma {:induction false} SumCountsInsert(s: seq<EndpointRow>, x: EndpointRow)
    ensures SumCounts(Insert(s, x, ByCountDesc)) == SumCounts(s) + x.requestCount
    decreases |s|
  {
    if s == [] {
    } else if ByCountDesc(s[|s| - 1], x) {
      assert (s + [x])[..|s|] == s;
    } else {
      var front := s[..|s| - 1];
      SumCountsInsert(front, x);
      var ins := Insert(front, x, ByCountDesc);
      assert (ins + [s[|s| - 1]])[..|ins|] == ins;
    }
  }

  lemma {:induction false} SumCountsSort(s: seq<EndpointRow>)
    ensures SumCounts(SortBy(s, ByCountDesc)) == SumCounts(s)
    decreases |s|
  {
    if s != [] {
      SumCountsSort(s[..|s| - 1]);
      SumCountsInsert(SortBy(s[..|s| - 1], ByCountDesc), s[|s| - 1]);
    }
  }

  function SumCounts(rows: seq<EndpointRow>): nat
  {
    if rows == [] then 0 else SumCounts(rows[..|rows| - 1]) + rows[|rows| - 1].requestCount
  }

  lemma {:induction false} SumCountsUpdate(rows: seq<EndpointRow>, i: nat, row: EndpointRow)
    requires i < |rows|
    ensures SumCounts(rows[i := row]) == SumCounts(rows) - rows[i].requestCount + row.requestCount
    decreases |rows|
  {
    var n := |rows| - 1;
    if i < n {
      SumCountsUpdate(rows[..n], i, row);
      assert rows[i := row][..n] == rows[..n][i := row];
    } else {
      assert rows[i := row][..n] == rows[..n];
    }
  }

  /** The request counts of the rows add up to the number of metrics tallied. */
  lemma {:induction false} GroupedTotal(ms: seq<Metric>)
    ensures SumCounts(Grouped(ms)) == |ms|
    decreases |ms|
  {
    if ms != [] {
      var front := ms[..|ms| - 1];
      var m := ms[|ms| - 1];
      GroupedTotal(front);
      var g := Grouped(front);
      var i := IndexOfKey(g, KeyOf(m));
      if i < 0 {
        var r := g + [Counted(EndpointRow(KeyOf(m), 0, 0, 0), m)];
        assert r[..|g|] == g;
      } else {
        SumCountsUpdate(g, i, Counted(g[i], m));
      }
    }
  }

  lemma RowsOfPermutation(a: seq<EndpointRow>, b: seq<EndpointRow>)
    requires multiset(a) == multiset(b)
    ensures forall row :: row in a <==> row in b
    ensures Keys(a) == Keys(b)
  {
    assert forall row :: row in a <==> row in multiset(a);
    assert forall row :: row in b <==> row in multiset(b);
    forall k | k in Keys(a) ensures k in Keys(b) {
      var j :| 0 <= j < |a| && a[j].endpoint == k;
      assert a[j] in b;
    }
    forall k | k in Keys(b) ensures k in Keys(a) {
      var j :| 0 <= j < |b| && b[j].endpoint == k;
      assert b[j] in a;
    }
  }

  /**
   * `getEndpointStats` has one row per distinct key seen in the window, its request counts add
   * up to the number of requests in the window, no row counts more errors than requests, and
   * the rows are sorted by request count, largest first.
   */
  lemma EndpointReportProperties(ms: seq<Metric>, now: int)
    ensures var r := EndpointReport(ms, now);
      && Keys(r) == SeenKeys(Recent(ms, now))
      && DistinctBy(r, EndpointOf)
      && SumCounts(r) == |Recent(ms, now)|
      && (forall i :: 0 <= i < |r| ==> r[i].errorCount <= r[i].requestCount)
      && SortedBy(r, ByCountDesc)
  {
    var recent := Recent(ms, now);
    var g := Grouped(recent);
    var r := SortBy(g, ByCountDesc);
    GroupedKeys(recent);
    GroupedDistinct(recent);
    SortByDistinct(g, ByCountDesc, EndpointOf);
    GroupedTotal(recent);
    SumCountsSort(g);
    SortBySorted(g, ByCountDesc);
    RowsOfPermutation(r, g);
    forall i | 0 <= i < |r| ensures r[i].errorCount <= r[i].requestCount {
      assert r[i] in g;
    }
  }
}
