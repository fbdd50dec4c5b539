/** The report analyzer of `analyze_reports.py`: the summary taken from a statistics file,
    the history series taken from a history file, the comparison report of two summaries,
    the guard of the plot, and the driver. Files arrive already parsed into rows; printing
    is modelled as the sequence of report lines the code would print. */
module AnalyzeReports {
  import opened Wrappers
  import opened Seqs

  /** A CSV file as the analyzing function meets it: absent (`os.path.exists` is false),
      present but raising inside its `try` (`read_csv` fails, a column that function reads
      is missing, a value has the wrong type), or a table of rows. A history row always
      carries the two plotted columns, which `analyze_history` itself never reads. */
  datatype CsvFile<R> = NotFound | Malformed | Table(rows: seq<R>)

  /** The name of the totals row that the load tester appends to a statistics file. */
  const AggregatedName := "Aggregated"

  /** A maximum response time above this many milliseconds triggers a timeout recommendation. */
  const SlowResponseThreshold := 1000.0

  /** Where the comparison plot is written. */
  const PlotPath := "reports/performance_comparison.png"

  // ---------------------------------------------------------------------------------------
  // analyze_stats

  /** One row of a `<system>_stats.csv` file. */
  datatype StatsRow = StatsRow(
    name: string,
    requestCount: int,
    failureCount: int,
    averageResponseTime: real,
    medianResponseTime: real,
    minResponseTime: real,
    maxResponseTime: real,
    requestsPerSecond: real,
    percentile90: real,
    percentile95: real,
    percentile99: real)

  /** The summary dictionary `analyze_stats` returns. */
  datatype Summary = Summary(
    endpoint: string,
    requests: int,
    failures: int,
    failureRate: real,
    avgResponseTime: real,
    medianResponseTime: real,
    minResponseTime: real,
    maxResponseTime: real,
    requestsPerSecond: real,
    percentile90: real,
    percentile95: real,
    percentile99: real)

  /** Failures as a percentage of requests, and 0 when there were no requests. */
  function FailureRate(failures: int, requests: int): (rate: real)
    ensures requests > 0 ==> rate * (requests as real) == (failures as real) * 100.0
    ensures requests <= 0 ==> rate == 0.0
  {
    if requests > 0 then (failures as real / requests as real) * 100.0 else 0.0
  }

  /** With at most as many failures as requests the rate is a percentage. */
  lemma FailureRateIsPercentage(failures: int, requests: int)
    requires 0 <= failures <= requests
    ensures 0.0 <= FailureRate(failures, requests) <= 100.0
  {
    if requests > 0 {
      var r, f := requests as real, failures as real;
      var q := f / r;
      assert q * r == f;
    }
  }

  /** `df['Name'] != 'Aggregated'`: the rows the summary may come from. */
  predicate IsDataRow(row: StatsRow) {
    row.name != AggregatedName
  }

  /** The dictionary built from one row. */
  function Summarize(row: StatsRow): Summary {
    Summary(row.name, row.requestCount, row.failureCount,
            FailureRate(row.failureCount, row.requestCount),
            row.averageResponseTime, row.medianResponseTime, row.minResponseTime,
            row.maxResponseTime, row.requestsPerSecond,
            row.percentile90, row.percentile95, row.percentile99)
  }

  /** Every field of `s` comes from `row`: copied, or for the rate derived from its counts. */
  predicate Describes(s: Summary, row: StatsRow) {
    s.endpoint == row.name && s.requests == row.requestCount && s.failures == row.failureCount &&
    s.failureRate == FailureRate(row.failureCount, row.requestCount) &&
    s.avgResponseTime == row.averageResponseTime && s.medianResponseTime == row.medianResponseTime &&
    s.minResponseTime == row.minResponseTime && s.maxResponseTime == row.maxResponseTime &&
    s.requestsPerSecond == row.requestsPerSecond && s.percentile90 == row.percentile90 &&
    s.percentile95 == row.percentile95 && s.percentile99 == row.percentile99
  }

  /** `analyze_stats`: drop the totals row, summarize the first remaining row. A missing
      file, a malformed one and one without a data row (`.iloc[0]` raises inside the `try`)
      all give `None`. */
  function AnalyzeStats(file: CsvFile<StatsRow>): (s: Option<Summary>)
    ensures !file.Table? ==> s == None
    ensures file.Table? ==> (s.Some? <==> exists i :: 0 <= i < |file.rows| && IsDataRow(file.rows[i]))
    ensures s.Some? ==> s.value.endpoint != AggregatedName
  {
    match file
    case NotFound => None
    case Malformed => None
    case Table(rows) =>
      var data := Filter(rows, IsDataRow);
      FilterEmpty(rows, IsDataRow);
      if |data| == 0 then None else Some(Summarize(data[0]))
  }

  /** The summary is that of the first row not named `Aggregated`, all fields from that row. */
  lemma {:induction false} SummaryOfFirstDataRow(file: CsvFile<StatsRow>)
    requires file.Table? && AnalyzeStats(file).Some?
    ensures exists i :: (0 <= i < |file.rows| && IsDataRow(file.rows[i]) &&
      (forall j :: 0 <= j < i ==> !IsDataRow(file.rows[j])) &&
      Describes(AnalyzeStats(file).value, file.rows[i]))
  {
    FilterHead(file.rows, IsDataRow);
  }

  /** A file with one data row of 100 requests and 5 failures, followed by the totals row,
      is summarized from the data row with a failure rate of 5 percent. */
  lemma StatsWithTotalsRow(data: StatsRow, totals: StatsRow)
    requires data == StatsRow("Total", 100, 5, 200.0, 180.0, 50.0, 900.0, 10.0, 300.0, 400.0, 600.0)
    requires totals.name == AggregatedName
    ensures AnalyzeStats(Table([data, totals])) ==
      Some(Summary("Total", 100, 5, 5.0, 200.0, 180.0, 50.0, 900.0, 10.0, 300.0, 400.0, 600.0))
  {
    assert Filter([data, totals], IsDataRow) == [data];
  }

  // ---------------------------------------------------------------------------------------
  // analyze_history

  /** One row of a `<system>_stats_history.csv` file; `timestamp` is in Unix epoch seconds. */
  datatype HistoryRow = HistoryRow(
    timestamp: int,
    totalRequestCount: int,
    totalAverageResponseTime: real,
    requestsPerSecond: real)

  /** A point in time, `epochSeconds` seconds after 1970-01-01T00:00:00 UTC. */
  datatype Instant = Instant(epochSeconds: int)

  /** A history row after `pd.to_datetime(..., unit='s')` has replaced its timestamp. */
  datatype HistoryPoint = HistoryPoint(
    time: Instant,
    totalRequestCount: int,
    totalAverageResponseTime: real,
    requestsPerSecond: real)

  function ToPoint(row: HistoryRow): HistoryPoint {
    HistoryPoint(Instant(row.timestamp), row.totalRequestCount,
                 row.totalAverageResponseTime, row.requestsPerSecond)
  }

  /** The `Timestamp` column converted, every other column and the row order kept. */
  function ConvertTimestamps(rows: seq<HistoryRow>): (points: seq<HistoryPoint>)
    ensures |points| == |rows|
    ensures forall k :: 0 <= k < |rows| ==>
      points[k].time.epochSeconds == rows[k].timestamp &&
      points[k].totalRequestCount == rows[k].totalRequestCount &&
      points[k].totalAverageResponseTime == rows[k].totalAverageResponseTime &&
      points[k].requestsPerSecond == rows[k].requestsPerSecond
  {
    seq(|rows|, k requires 0 <= k < |rows| => ToPoint(rows[k]))
  }

  /** `df['Total Request Count'] > 0`. */
  predicate HasTraffic(p: HistoryPoint) {
    p.totalRequestCount > 0
  }

  /** `analyze_history`: convert the timestamps, keep the rows with a positive request count. */
  function AnalyzeHistory(file: CsvFile<HistoryRow>): (h: Option<seq<HistoryPoint>>)
    ensures h.Some? <==> file.Table?
    ensures h.Some? ==> |h.value| <= |file.rows|
    ensures h.Some? ==> forall k :: 0 <= k < |h.value| ==> h.value[k].totalRequestCount > 0
    ensures h.Some? ==> forall i :: 0 <= i < |file.rows| && file.rows[i].totalRequestCount > 0 ==>
      ToPoint(file.rows[i]) in h.value
  {
    match file
    case NotFound => None
    case Malformed => None
    case Table(rows) =>
      var df := ConvertTimestamps(rows);
      assert forall i :: 0 <= i < |rows| ==> df[i] == ToPoint(rows[i]) && df[i] in df;
      Some(Filter(df, HasTraffic))
  }

  /** The history keeps the rows with traffic as a subsequence: at increasing row positions,
      every row with traffic among them, each converted, none added. */
  lemma HistoryIsOrderedSubsequence(file: CsvFile<HistoryRow>)
    requires file.Table?
    ensures var h := AnalyzeHistory(file).value;
      var idx := FilterPositions(ConvertTimestamps(file.rows), HasTraffic, 0);
      |idx| == |h| &&
      (forall k :: 0 <= k < |idx| ==> idx[k] < |file.rows| && h[k] == ToPoint(file.rows[idx[k]])) &&
      (forall k, m :: 0 <= k < m < |idx| ==> idx[k] < idx[m]) &&
      (forall i :: 0 <= i < |file.rows| && file.rows[i].totalRequestCount > 0 ==> i in idx)
  {
    var df := ConvertTimestamps(file.rows);
    assert df[0..] == df;
    FilterAtPositions(df, HasTraffic, 0);
    FilterPositionsComplete(df, HasTraffic, 0);
    assert forall i :: 0 <= i < |file.rows| ==> df[i] == ToPoint(file.rows[i]);
  }

  /** Of the rows with 0, 5 and 7 requests at seconds 0, 1 and 2, the last two are kept. */
  lemma HistoryDropsIdleRows(r0: HistoryRow, r1: HistoryRow, r2: HistoryRow)
    requires r0.timestamp == 0 && r0.totalRequestCount == 0
    requires r1.timestamp == 1 && r1.totalRequestCount == 5
    requires r2.timestamp == 2 && r2.totalRequestCount == 7
    ensures AnalyzeHistory(Table([r0, r1, r2])) == Some([ToPoint(r1), ToPoint(r2)])
    ensures AnalyzeHistory(Table([r0, r1, r2])).value[0].time == Instant(1)
  {
    var df := ConvertTimestamps([r0, r1, r2]);
    assert df == [ToPoint(r0), ToPoint(r1), ToPoint(r2)];
    var t1: seq<HistoryPoint> := [ToPoint(r1), ToPoint(r2)];
    var t2: seq<HistoryPoint> := [ToPoint(r2)];
    assert df[1..] == t1 && t1[1..] == t2 && t2[1..] == [];
    assert Filter(t2, HasTraffic) == t2;
    assert Filter(t1, HasTraffic) == [t1[0]] + Filter(t2, HasTraffic);
    assert [t1[0]] + t2 == t1;
    assert Filter(df, HasTraffic) == Filter(t1, HasTraffic);
    assert AnalyzeHistory(Table([r0, r1, r2])) == Some(Filter(df, HasTraffic));
  }

  // ---------------------------------------------------------------------------------------
  // generate_comparison_report

  /** The two systems, in display order: the first summary and the second. */
  datatype Side = OpenAI | HuggingFace

  /** One printed line of the report (or block of lines, for the table and headings). */
  datatype Line =
    | MissingSummaryError
    | ComparisonTable(openai: Summary, huggingface: Summary)
    | InsightsHeading
    | LowerAverageResponseTime(winner: Side)
    | HigherThroughput(winner: Side)
    | MoreConsistent(winner: Side)
    | RecommendationsHeading
    | InvestigateFailures(side: Side, failureRate: real)
    | ImplementTimeouts(side: Side)
    | RetryWithBackoff
    | CacheResponses

  /** The 95th percentile divided by the median: lower means more consistent. */
  function StabilityRatio(s: Summary): real
    requires s.medianResponseTime > 0.0
  {
    s.percentile95 / s.medianResponseTime
  }

  /** Both medians are positive when both summaries are present. */
  predicate RatiosDefined(openai: Option<Summary>, huggingface: Option<Summary>) {
    openai.Some? && huggingface.Some? ==>
      openai.value.medianResponseTime > 0.0 && huggingface.value.medianResponseTime > 0.0
  }

  /** `[line]` when `condition` holds, nothing otherwise. */
  function When(condition: bool, line: Line): (lines: seq<Line>)
    ensures line in lines <==> condition
    ensures |lines| <= 1 && forall l :: l in lines ==> l == line
  {
    if condition then [line] else []
  }

  /** The insights: three comparisons, each won by the first system only when it is strictly
      better, so that a tie goes to the second system. */
  function Insights(a: Summary, b: Summary): seq<Line>
    requires a.medianResponseTime > 0.0 && b.medianResponseTime > 0.0
  {
    [InsightsHeading,
     LowerAverageResponseTime(if a.avgResponseTime < b.avgResponseTime then OpenAI else HuggingFace),
     HigherThroughput(if a.requestsPerSecond > b.requestsPerSecond then OpenAI else HuggingFace),
     MoreConsistent(if StabilityRatio(a) < StabilityRatio(b) then OpenAI else HuggingFace)]
  }

  /** A failure item for each system whose failure rate is positive. */
  function FailureItems(a: Summary, b: Summary): seq<Line> {
    When(a.failureRate > 0.0, InvestigateFailures(OpenAI, a.failureRate)) +
    When(b.failureRate > 0.0, InvestigateFailures(HuggingFace, b.failureRate))
  }

  /** A timeout item for each system whose slowest request exceeded the threshold. */
  function TimeoutItems(a: Summary, b: Summary): seq<Line> {
    When(a.maxResponseTime > SlowResponseThreshold, ImplementTimeouts(OpenAI)) +
    When(b.maxResponseTime > SlowResponseThreshold, ImplementTimeouts(HuggingFace))
  }

  /** The recommendations: the failure items, the timeout items, then the two that are
      always given. */
  function Recommendations(a: Summary, b: Summary): seq<Line> {
    [RecommendationsHeading] + FailureItems(a, b) + TimeoutItems(a, b) + [RetryWithBackoff, CacheResponses]
  }

  /** `generate_comparison_report` with its output as lines: an error when a summary is
      missing; otherwise the table, the insights and the recommendations. */
  function GenerateComparisonReport(openai: Option<Summary>, huggingface: Option<Summary>): (lines: seq<Line>)
    requires RatiosDefined(openai, huggingface)
    ensures openai.None? || huggingface.None? ==> lines == [MissingSummaryError]
    ensures openai.Some? && huggingface.Some? ==>
      |lines| > 0 && lines[0] == ComparisonTable(openai.value, huggingface.value) &&
      MissingSummaryError !in lines
  {
    if openai.None? || huggingface.None? then [MissingSummaryError]
    else
      var a, b := openai.value, huggingface.value;
      var lines := [ComparisonTable(a, b)] + Insights(a, b) + Recommendations(a, b);
      assert lines[0] == ComparisonTable(a, b);
      NoErrorInRecommendations(a, b);
      lines
  }

  function SummaryOf(side: Side, a: Summary, b: Summary): Summary {
    if side == OpenAI then a else b
  }

  /** The rank of a line in the report's fixed order. */
  function Position(line: Line): nat {
    match line
    case MissingSummaryError => 0
    case ComparisonTable(_, _) => 1
    case InsightsHeading => 2
    case LowerAverageResponseTime(_) => 3
    case HigherThroughput(_) => 4
    case MoreConsistent(_) => 5
    case RecommendationsHeading => 6
    case InvestigateFailures(side, _) => if side == OpenAI then 7 else 8
    case ImplementTimeouts(side) => if side == OpenAI then 9 else 10
    case RetryWithBackoff => 11
    case CacheResponses => 12
  }

  /** The ranks strictly increase along `lines`, all within `[lo, hi)`. */
  predicate Ranked(lines: seq<Line>, lo: nat, hi: nat) {
    (forall i :: 0 <= i < |lines| ==> lo <= Position(lines[i]) < hi) &&
    (forall i, j :: 0 <= i < j < |lines| ==> Position(lines[i]) < Position(lines[j]))
  }

  lemma RankedConcat(x: seq<Line>, y: seq<Line>, lo: nat, mid: nat, hi: nat)
    requires lo <= mid <= hi
    requires Ranked(x, lo, mid) && Ranked(y, mid, hi)
    ensures Ranked(x + y, lo, hi)
  {
    forall i, j | 0 <= i < j < |x + y| ensures Position((x + y)[i]) < Position((x + y)[j]) {
      if j < |x| {
        assert (x + y)[i] == x[i] && (x + y)[j] == x[j];
      } else if i >= |x| {
        assert (x + y)[i] == y[i - |x|] && (x + y)[j] == y[j - |x|];
      } else {
        assert (x + y)[i] == x[i] && (x + y)[j] == y[j - |x|];
      }
    }
    forall i | 0 <= i < |x + y| ensures lo <= Position((x + y)[i]) < hi {
      if i < |x| { assert (x + y)[i] == x[i]; } else { assert (x + y)[i] == y[i - |x|]; }
    }
  }

  lemma FailureItemsRanked(a: Summary, b: Summary)
    ensures Ranked(FailureItems(a, b), 7, 9)
  {
    var f1 := When(a.failureRate > 0.0, InvestigateFailures(OpenAI, a.failureRate));
    var f2 := When(b.failureRate > 0.0, InvestigateFailures(HuggingFace, b.failureRate));
    assert Ranked(f1, 7, 8) && Ranked(f2, 8, 9);
    RankedConcat(f1, f2, 7, 8, 9);
  }

  lemma TimeoutItemsRanked(a: Summary, b: Summary)
    ensures Ranked(TimeoutItems(a, b), 9, 11)
  {
    var t1 := When(a.maxResponseTime > SlowResponseThreshold, ImplementTimeouts(OpenAI));
    var t2 := When(b.maxResponseTime > SlowResponseThreshold, ImplementTimeouts(HuggingFace));
    assert Ranked(t1, 9, 10) && Ranked(t2, 10, 11);
    RankedConcat(t1, t2, 9, 10, 11);
  }

  lemma {:induction false} RecommendationsRanked(a: Summary, b: Summary)
    ensures Ranked(Recommendations(a, b), 6, 13)
  {
    var r0: seq<Line> := [RecommendationsHeading];
    var f := FailureItems(a, b);
    var t := TimeoutItems(a, b);
    var last: seq<Line> := [RetryWithBackoff, CacheResponses];
    FailureItemsRanked(a, b);
    TimeoutItemsRanked(a, b);
    assert Ranked(r0, 6, 7);
    assert Ranked(last, 11, 13);
    RankedConcat(r0, f, 6, 7, 9);
    RankedConcat(r0 + f, t, 6, 9, 11);
    RankedConcat(r0 + f + t, last, 6, 11, 13);
  }

  lemma NoErrorInRecommendations(a: Summary, b: Summary)
    ensures MissingSummaryError !in Recommendations(a, b)
  {
    RecommendationsRanked(a, b);
  }

  /** The report is in its fixed order, so no kind of line appears twice. */
  lemma ReportInFixedOrder(a: Summary, b: Summary)
    requires a.medianResponseTime > 0.0 && b.medianResponseTime > 0.0
    ensures var lines := GenerateComparisonReport(Some(a), Some(b));
      forall i, j :: 0 <= i < j < |lines| ==> Position(lines[i]) < Position(lines[j])
    ensures var lines := GenerateComparisonReport(Some(a), Some(b));
      forall i, j :: (0 <= i < |lines| && 0 <= j < |lines| &&
        Position(lines[i]) == Position(lines[j])) ==> i == j
  {
    assert Ranked([ComparisonTable(a, b)], 1, 2);
    assert Ranked(Insights(a, b), 2, 6);
    RecommendationsRanked(a, b);
    RankedConcat([ComparisonTable(a, b)], Insights(a, b), 1, 2, 6);
    RankedConcat([ComparisonTable(a, b)] + Insights(a, b), Recommendations(a, b), 1, 6, 13);
  }

  /** Comparing the two ratios is comparing the cross products. */
  lemma RatioOrder(a: Summary, b: Summary)
    requires a.medianResponseTime > 0.0 && b.medianResponseTime > 0.0
    ensures StabilityRatio(a) < StabilityRatio(b) <==>
      a.percentile95 * b.medianResponseTime < b.percentile95 * a.medianResponseTime
  {
    var ra, rb := StabilityRatio(a), StabilityRatio(b);
    var ma, mb := a.medianResponseTime, b.medianResponseTime;
    assert a.percentile95 == ra * ma;
    assert b.percentile95 == rb * mb;
    assert a.percentile95 * mb == ra * (ma * mb);
    assert b.percentile95 * ma == rb * (ma * mb);
    assert ma * mb > 0.0;
  }

  /** A line of the report is the table, an insight or a recommendation; the insights and
      the table are never recommendations. */
  lemma ReportParts(a: Summary, b: Summary, l: Line)
    requires a.medianResponseTime > 0.0 && b.medianResponseTime > 0.0
    ensures l in GenerateComparisonReport(Some(a), Some(b)) <==>
      l == ComparisonTable(a, b) || l in Insights(a, b) || l in Recommendations(a, b)
    ensures l in Recommendations(a, b) ==> 6 <= Position(l)
  {
    RecommendationsRanked(a, b);
    if l in Recommendations(a, b) {
      var i :| 0 <= i < |Recommendations(a, b)| && Recommendations(a, b)[i] == l;
    }
  }

  /** The mean-time insight names exactly one winner: the first system only when its mean
      response time is strictly lower. */
  lemma LowerAverageResponseTimeWinner(a: Summary, b: Summary)
    requires a.medianResponseTime > 0.0 && b.medianResponseTime > 0.0
    ensures var lines := GenerateComparisonReport(Some(a), Some(b));
      (LowerAverageResponseTime(OpenAI) in lines <==> a.avgResponseTime < b.avgResponseTime) &&
      (LowerAverageResponseTime(HuggingFace) in lines <==> a.avgResponseTime >= b.avgResponseTime)
  {
    ReportParts(a, b, LowerAverageResponseTime(OpenAI));
    ReportParts(a, b, LowerAverageResponseTime(HuggingFace));
  }

  /** The throughput insight names exactly one winner: the first system only when its
      throughput is strictly higher. */
  lemma HigherThroughputWinner(a: Summary, b: Summary)
    requires a.medianResponseTime > 0.0 && b.medianResponseTime > 0.0
    ensures var lines := GenerateComparisonReport(Some(a), Some(b));
      (HigherThroughput(OpenAI) in lines <==> a.requestsPerSecond > b.requestsPerSecond) &&
      (HigherThroughput(HuggingFace) in lines <==> a.requestsPerSecond <= b.requestsPerSecond)
  {
    ReportParts(a, b, HigherThroughput(OpenAI));
    ReportParts(a, b, HigherThroughput(HuggingFace));
  }

  /** The consistency insight names exactly one winner: the first system only when its
      95th-percentile-to-median ratio is strictly smaller. */
  lemma MoreConsistentWinner(a: Summary, b: Summary)
    requires a.medianResponseTime > 0.0 && b.medianResponseTime > 0.0
    ensures var lines := GenerateComparisonReport(Some(a), Some(b));
      (MoreConsistent(OpenAI) in lines <==>
        a.percentile95 * b.medianResponseTime < b.percentile95 * a.medianResponseTime) &&
      (MoreConsistent(HuggingFace) in lines <==>
        a.percentile95 * b.medianResponseTime >= b.percentile95 * a.medianResponseTime)
  {
    ReportParts(a, b, MoreConsistent(OpenAI));
    ReportParts(a, b, MoreConsistent(HuggingFace));
    RatioOrder(a, b);
  }

  /** A 200 ms, 10 requests/s first system against a 150 ms, 12 requests/s second one: the
      second wins both the mean-time and the throughput insight. */
  lemma SecondSystemFasterAndBusier(a: Summary, b: Summary)
    requires a.avgResponseTime == 200.0 && a.requestsPerSecond == 10.0
    requires b.avgResponseTime == 150.0 && b.requestsPerSecond == 12.0
    requires a.medianResponseTime > 0.0 && b.medianResponseTime > 0.0
    ensures var lines := GenerateComparisonReport(Some(a), Some(b));
      LowerAverageResponseTime(HuggingFace) in lines && LowerAverageResponseTime(OpenAI) !in lines &&
      HigherThroughput(HuggingFace) in lines && HigherThroughput(OpenAI) !in lines
  {
    LowerAverageResponseTimeWinner(a, b);
    HigherThroughputWinner(a, b);
  }

  /** The recommendations as a set: the data-driven items exactly when their condition holds. */
  lemma RecommendationItems(a: Summary, b: Summary, l: Line)
    ensures l in Recommendations(a, b) <==>
      l == RecommendationsHeading || l in FailureItems(a, b) || l in TimeoutItems(a, b) ||
      l == RetryWithBackoff || l == CacheResponses
    ensures l in FailureItems(a, b) <==>
      (l == InvestigateFailures(OpenAI, a.failureRate) && a.failureRate > 0.0) ||
      (l == InvestigateFailures(HuggingFace, b.failureRate) && b.failureRate > 0.0)
    ensures l in TimeoutItems(a, b) <==>
      (l == ImplementTimeouts(OpenAI) && a.maxResponseTime > SlowResponseThreshold) ||
      (l == ImplementTimeouts(HuggingFace) && b.maxResponseTime > SlowResponseThreshold)
  {
  }

  /** A failure item for each system that had failures. */
  lemma FailureRecommendations(a: Summary, b: Summary)
    requires a.medianResponseTime > 0.0 && b.medianResponseTime > 0.0
    ensures var lines := GenerateComparisonReport(Some(a), Some(b));
      (InvestigateFailures(OpenAI, a.failureRate) in lines <==> a.failureRate > 0.0) &&
      (InvestigateFailures(HuggingFace, b.failureRate) in lines <==> b.failureRate > 0.0)
  {
    ReportParts(a, b, InvestigateFailures(OpenAI, a.failureRate));
    ReportParts(a, b, InvestigateFailures(HuggingFace, b.failureRate));
    RecommendationItems(a, b, InvestigateFailures(OpenAI, a.failureRate));
    RecommendationItems(a, b, InvestigateFailures(HuggingFace, b.failureRate));
  }

  /** A timeout item for each system slower than 1000 ms at worst. */
  lemma TimeoutRecommendations(a: Summary, b: Summary)
    requires a.medianResponseTime > 0.0 && b.medianResponseTime > 0.0
    ensures var lines := GenerateComparisonReport(Some(a), Some(b));
      (ImplementTimeouts(OpenAI) in lines <==> a.maxResponseTime > SlowResponseThreshold) &&
      (ImplementTimeouts(HuggingFace) in lines <==> b.maxResponseTime > SlowResponseThreshold)
  {
    ReportParts(a, b, ImplementTimeouts(OpenAI));
    ReportParts(a, b, ImplementTimeouts(HuggingFace));
    RecommendationItems(a, b, ImplementTimeouts(OpenAI));
    RecommendationItems(a, b, ImplementTimeouts(HuggingFace));
  }

  /** The retry and caching recommendations are always given, and last. */
  lemma FixedRecommendationsLast(a: Summary, b: Summary)
    requires a.medianResponseTime > 0.0 && b.medianResponseTime > 0.0
    ensures var lines := GenerateComparisonReport(Some(a), Some(b));
      |lines| >= 8 && lines[|lines| - 2] == RetryWithBackoff && lines[|lines| - 1] == CacheResponses
  {
    var r := Recommendations(a, b);
    var lines := [ComparisonTable(a, b)] + Insights(a, b) + r;
    assert r[|r| - 2] == RetryWithBackoff && r[|r| - 1] == CacheResponses;
    assert lines[|lines| - 2] == r[|r| - 2] && lines[|lines| - 1] == r[|r| - 1];
  }

  /** Every failure item carries the rate of the system it names. */
  lemma FailureItemsCarryTheirRate(a: Summary, b: Summary, l: Line)
    requires a.medianResponseTime > 0.0 && b.medianResponseTime > 0.0
    requires l in GenerateComparisonReport(Some(a), Some(b)) && l.InvestigateFailures?
    ensures l.failureRate == SummaryOf(l.side, a, b).failureRate && l.failureRate > 0.0
  {
    ReportParts(a, b, l);
    RecommendationItems(a, b, l);
  }

  // ---------------------------------------------------------------------------------------
  // plot_comparison

  /** One plotted point. */
  datatype Sample = Sample(time: Instant, value: real)

  /** One panel: a line per system. */
  datatype Chart = Chart(openai: seq<Sample>, huggingface: seq<Sample>)

  /** What `plot_comparison` does: save the two panels to `PlotPath`, or print an error. */
  datatype PlotOutcome = Saved(path: string, responseTimes: Chart, throughput: Chart) | MissingHistoryError

  function ResponseTimeSeries(h: seq<HistoryPoint>): (s: seq<Sample>)
    ensures |s| == |h|
    ensures forall k :: 0 <= k < |h| ==> s[k].time == h[k].time && s[k].value == h[k].totalAverageResponseTime
  {
    seq(|h|, k requires 0 <= k < |h| => Sample(h[k].time, h[k].totalAverageResponseTime))
  }

  function ThroughputSeries(h: seq<HistoryPoint>): (s: seq<Sample>)
    ensures |s| == |h|
    ensures forall k :: 0 <= k < |h| ==> s[k].time == h[k].time && s[k].value == h[k].requestsPerSecond
  {
    seq(|h|, k requires 0 <= k < |h| => Sample(h[k].time, h[k].requestsPerSecond))
  }

  /** `plot_comparison`: plots whenever both histories are present (`is not None`), even
      an empty one; the first panel is mean response time, the second throughput. */
  function PlotComparison(openai: Option<seq<HistoryPoint>>, huggingface: Option<seq<HistoryPoint>>): (p: PlotOutcome)
    ensures p.Saved? <==> openai.Some? && huggingface.Some?
    ensures p.Saved? ==> (p.path == PlotPath &&
      p.responseTimes == Chart(ResponseTimeSeries(openai.value), ResponseTimeSeries(huggingface.value)) &&
      p.throughput == Chart(ThroughputSeries(openai.value), ThroughputSeries(huggingface.value)))
  {
    if openai.Some? && huggingface.Some? then
      Saved(PlotPath,
            Chart(ResponseTimeSeries(openai.value), ResponseTimeSeries(huggingface.value)),
            Chart(ThroughputSeries(openai.value), ThroughputSeries(huggingface.value)))
    else
      MissingHistoryError
  }

  // ---------------------------------------------------------------------------------------
  // main

  /** How a run of the analyzer ends: exit status 1 for a missing `reports` directory, or
      the report lines printed (none when a summary is missing) and the plot outcome. */
  datatype RunOutcome = ReportsDirectoryMissing | Completed(report: seq<Line>, plot: PlotOutcome)

  function ExitStatus(o: RunOutcome): (status: int)
    ensures status == 1 <==> o.ReportsDirectoryMissing?
    ensures status == 0 <==> o.Completed?
  {
    if o.ReportsDirectoryMissing? then 1 else 0
  }

  /** `main`: stop when `reports` is missing; summarize both statistics files and report
      only when both summaries are present; analyze both histories and always call the plot. */
  function RunAnalysis(reportsExists: bool,
                       openaiStats: CsvFile<StatsRow>, huggingfaceStats: CsvFile<StatsRow>,
                       openaiHistory: CsvFile<HistoryRow>, huggingfaceHistory: CsvFile<HistoryRow>): (o: RunOutcome)
    requires RatiosDefined(AnalyzeStats(openaiStats), AnalyzeStats(huggingfaceStats))
    ensures o.ReportsDirectoryMissing? <==> !reportsExists
    ensures o.Completed? ==>
      (o.report == [] <==> AnalyzeStats(openaiStats).None? || AnalyzeStats(huggingfaceStats).None?)
    ensures o.Completed? ==> MissingSummaryError !in o.report
    ensures o.Completed? && o.report != [] ==>
      o.report == GenerateComparisonReport(AnalyzeStats(openaiStats), AnalyzeStats(huggingfaceStats))
    ensures o.Completed? ==>
      o.plot == PlotComparison(AnalyzeHistory(openaiHistory), AnalyzeHistory(huggingfaceHistory))
  {
    if !reportsExists then ReportsDirectoryMissing
    else
      var openaiSummary := AnalyzeStats(openaiStats);
      var huggingfaceSummary := AnalyzeStats(huggingfaceStats);
      var report :=
        if openaiSummary.Some? && huggingfaceSummary.Some? then
          GenerateComparisonReport(openaiSummary, huggingfaceSummary)
        else [];
      Completed(report, PlotComparison(AnalyzeHistory(openaiHistory), AnalyzeHistory(huggingfaceHistory)))
  }
}
