/** DemeterEye/Views/HistoryChartViewModel.swift: the NDVI timeline behind the
    history chart and the rules that size the chart by its number of points.

    Dates are instants on a totally ordered `int` scale. Parsing an ISO 8601
    timestamp with fractional seconds is Foundation's business, so it enters the
    model as the function `parseDate`, `None` standing for a string that does
    not parse. */
module HistoryChart {
  import opened Wrappers
  import FieldHistory

  type Record = FieldHistory.FieldHistory

  /** One plotted point: the parsed date, the NDVI value and the record it came from. */
  datatype HistoryDataPoint = HistoryDataPoint(date: int, ndvi: real, originalData: Record)

  /** The two `Calendar.Component` values the chart's axis uses. */
  datatype CalendarComponent = WeekOfYear | Month

  /** Up to this many points the chart is dense enough to draw every point. */
  const DenseLimit: nat := 50
  const PointsPerScreenWidth: real := 10.0
  const WidthPerPoint: real := 50.0

  /** A point faithfully carries its record: its date is the record's parsed
      date and its NDVI is the record's NDVI. */
  predicate WellFormed(p: HistoryDataPoint, parseDate: string -> Option<int>) {
    parseDate(p.originalData.date) == Some(p.date) && p.ndvi == p.originalData.ndvi
  }

  /** The records whose date parses, in their original order. */
  function Parsable(h: seq<Record>, parseDate: string -> Option<int>): seq<Record> {
    if |h| == 0 then []
    else (if parseDate(h[0].date).Some? then [h[0]] else []) + Parsable(h[1..], parseDate)
  }

  /** The records behind a sequence of points. */
  function Originals(s: seq<HistoryDataPoint>): seq<Record> {
    if |s| == 0 then [] else [s[0].originalData] + Originals(s[1..])
  }

  /** The `compactMap` step: one point per record whose date parses, in order. */
  function CompactMapPoints(h: seq<Record>, parseDate: string -> Option<int>): (r: seq<HistoryDataPoint>)
    ensures |r| <= |h|
    ensures Originals(r) == Parsable(h, parseDate)
    ensures forall p | p in r :: WellFormed(p, parseDate)
  {
    if |h| == 0 then []
    else
      var rest := CompactMapPoints(h[1..], parseDate);
      match parseDate(h[0].date)
      case None => rest
      case Some(date) =>
        var p := HistoryDataPoint(date, h[0].ndvi, h[0]);
        assert ([p] + rest)[1..] == rest;
        [p] + rest
  }

  predicate SortedByDate(s: seq<HistoryDataPoint>) {
    forall i, j | 0 <= i < j < |s| :: s[i].date <= s[j].date
  }

  /** Putting a point no later than the head in front keeps a sequence sorted. */
  lemma SortedCons(p: HistoryDataPoint, s: seq<HistoryDataPoint>)
    requires SortedByDate(s)
    requires |s| == 0 || p.date <= s[0].date
    ensures SortedByDate([p] + s)
  {
    forall i, j | 0 <= i < j < |[p] + s| ensures ([p] + s)[i].date <= ([p] + s)[j].date {
      if i == 0 && j > 1 {
        assert s[0].date <= s[j - 1].date;
      }
    }
  }

  /** Inserts `p` into a date-sorted sequence ahead of the first point not earlier than it. */
  function InsertByDate(p: HistoryDataPoint, s: seq<HistoryDataPoint>): (r: seq<HistoryDataPoint>)
    requires SortedByDate(s)
    ensures SortedByDate(r)
    ensures multiset(r) == multiset(s) + multiset{p}
    ensures |r| > 0 && (r[0] == p || (|s| > 0 && r[0] == s[0]))
  {
    if |s| == 0 || p.date <= s[0].date then
      SortedCons(p, s);
      [p] + s
    else
      var tail := InsertByDate(p, s[1..]);
      assert s == [s[0]] + s[1..];
      assert s[0].date <= tail[0].date by {
        if tail[0] != p {
          assert s[0].date <= s[1].date;
        }
      }
      SortedCons(s[0], tail);
      [s[0]] + tail
  }

  /** The `sorted(by: { $0.date < $1.date })` step. */
  function SortByDate(s: seq<HistoryDataPoint>): (r: seq<HistoryDataPoint>)
    ensures SortedByDate(r)
    ensures multiset(r) == multiset(s)
  {
    if |s| == 0 then []
    else
      assert s == [s[0]] + s[1..];
      InsertByDate(s[0], SortByDate(s[1..]))
  }

  lemma {:induction false} OriginalsConcat(a: seq<HistoryDataPoint>, b: seq<HistoryDataPoint>)
    ensures Originals(a + b) == Originals(a) + Originals(b)
  {
    if |a| > 0 {
      OriginalsConcat(a[1..], b);
      assert (a + b)[1..] == a[1..] + b;
    } else {
      assert a + b == b;
    }
  }

  /** Cutting the point at `k` out of a sequence removes one copy of it. */
  lemma RemoveAt(b: seq<HistoryDataPoint>, k: nat)
    requires k < |b|
    ensures multiset(b[..k] + b[k + 1..]) == multiset(b) - multiset{b[k]}
  {
    assert b == b[..k] + [b[k]] + b[k + 1..];
  }

  /** The records of a sequence split around position `k`. */
  lemma {:induction false} OriginalsAround(b: seq<HistoryDataPoint>, k: nat)
    requires k < |b|
    ensures Originals(b) == Originals(b[..k]) + [b[k].originalData] + Originals(b[k + 1..])
  {
    var tail := [b[k]] + b[k + 1..];
    assert b == b[..k] + tail;
    OriginalsConcat(b[..k], tail);
    assert tail[1..] == b[k + 1..];
    assert Originals(tail) == [b[k].originalData] + Originals(b[k + 1..]);
  }

  /** Rearranging points rearranges their records the same way. */
  lemma {:induction false} OriginalsPermutation(a: seq<HistoryDataPoint>, b: seq<HistoryDataPoint>)
    requires multiset(a) == multiset(b)
    ensures multiset(Originals(a)) == multiset(Originals(b))
    decreases |a|
  {
    if |a| == 0 {
      assert |multiset(b)| == 0;
    } else {
      assert a[0] in multiset(b);
      var k :| 0 <= k < |b| && b[k] == a[0];
      var rest := b[..k] + b[k + 1..];
      RemoveAt(b, k);
      assert a == [a[0]] + a[1..];
      assert multiset(a[1..]) == multiset(rest);
      OriginalsPermutation(a[1..], rest);
      OriginalsConcat(b[..k], b[k + 1..]);
      OriginalsAround(b, k);
    }
  }

  /** The whole pipeline the initializer runs over the history. */
  function Timeline(h: seq<Record>, parseDate: string -> Option<int>): (r: seq<HistoryDataPoint>)
    ensures SortedByDate(r)
    ensures forall p | p in r :: WellFormed(p, parseDate)
    ensures multiset(Originals(r)) == multiset(Parsable(h, parseDate))
  {
    var points := CompactMapPoints(h, parseDate);
    var sorted := SortByDate(points);
    assert forall p | p in sorted :: p in multiset(points);
    OriginalsPermutation(sorted, points);
    sorted
  }

  /** A record occurs in the parsable subset exactly as often as in the history
      when its date parses, and not at all otherwise. */
  lemma {:induction false} ParsableMultiplicity(h: seq<Record>, parseDate: string -> Option<int>, x: Record)
    ensures multiset(Parsable(h, parseDate))[x] ==
            if parseDate(x.date).Some? then multiset(h)[x] else 0
  {
    if |h| > 0 {
      ParsableMultiplicity(h[1..], parseDate, x);
      assert h == [h[0]] + h[1..];
    }
  }

  /** Dropping unparsable records never adds any, and drops none exactly when
      every date parses. */
  lemma {:induction false} ParsableLength(h: seq<Record>, parseDate: string -> Option<int>)
    ensures |Parsable(h, parseDate)| <= |h|
    ensures |Parsable(h, parseDate)| == |h| <==> forall i | 0 <= i < |h| :: parseDate(h[i].date).Some?
  {
    if |h| > 0 {
      ParsableLength(h[1..], parseDate);
      if parseDate(h[0].date).Some? {
        assert (forall i | 0 <= i < |h| :: parseDate(h[i].date).Some?) <==>
               (forall i | 0 <= i < |h[1..]| :: parseDate(h[1..][i].date).Some?) by {
          forall i | 0 <= i < |h[1..]| ensures h[1..][i] == h[i + 1] { }
        }
      }
    }
  }

  lemma {:induction false} OriginalsLength(s: seq<HistoryDataPoint>)
    ensures |Originals(s)| == |s|
  {
    if |s| > 0 {
      OriginalsLength(s[1..]);
    }
  }

  /** What the initializer promises about the chart data: sorted by date, one
      well-formed point per record whose date parses (none lost, none
      duplicated), at most as many points as records, and exactly as many when
      every date parses. */
  lemma TimelineFromHistory(h: seq<Record>, parseDate: string -> Option<int>)
    ensures SortedByDate(Timeline(h, parseDate))
    ensures forall p | p in Timeline(h, parseDate) :: WellFormed(p, parseDate)
    ensures forall x: Record :: multiset(Originals(Timeline(h, parseDate)))[x] ==
              if parseDate(x.date).Some? then multiset(h)[x] else 0
    ensures |Timeline(h, parseDate)| <= |h|
    ensures |Timeline(h, parseDate)| == |h| <==> forall i | 0 <= i < |h| :: parseDate(h[i].date).Some?
  {
    var points := CompactMapPoints(h, parseDate);
    var t := Timeline(h, parseDate);
    forall x: Record
      ensures multiset(Originals(t))[x] == if parseDate(x.date).Some? then multiset(h)[x] else 0
    {
      ParsableMultiplicity(h, parseDate, x);
    }
    assert |t| == |points| by {
      assert |multiset(t)| == |multiset(points)|;
    }
    OriginalsLength(points);
    ParsableLength(h, parseDate);
  }

  class HistoryChartViewModel {
    const history: seq<Record>
    const parseDate: string -> Option<int>
    var chartData: seq<HistoryDataPoint>

    /** The chart data is the history's timeline: by Timeline and
        TimelineFromHistory, the history's parsable records as well-formed
        points, in date order, none lost and none duplicated. */
    constructor (history: seq<Record>, parseDate: string -> Option<int>)
      ensures this.history == history && this.parseDate == parseDate
      ensures chartData == Timeline(history, parseDate)
    {
      this.history := history;
      this.parseDate := parseDate;
      chartData := Timeline(history, parseDate);
    }

    /** The width of the scrolling chart for the current data. */
    function CalculateChartWidth(screenWidth: real): (w: real)
      reads this
      ensures |chartData| > DenseLimit ==> w * PointsPerScreenWidth == screenWidth * (|chartData| as real)
      ensures |chartData| <= DenseLimit ==>
                w >= screenWidth && w >= (|chartData| as real) * WidthPerPoint
                && (w == screenWidth || w == (|chartData| as real) * WidthPerPoint)
      ensures screenWidth >= 0.0 ==> w >= screenWidth
    {
      ChartWidth(|chartData|, screenWidth)
    }

    /** Every point is drawn exactly when the axis ticks weekly. */
    predicate ShouldShowPoints(): (show: bool)
      reads this
      ensures show <==> AxisStride() == WeekOfYear
    {
      |chartData| <= DenseLimit
    }

    /** The axis ticks by month only above the dense limit; fifty points still
        tick weekly. */
    function AxisStride(): (stride: CalendarComponent)
      reads this
      ensures stride == Month <==> |chartData| > DenseLimit
      ensures stride == WeekOfYear <==> |chartData| <= DenseLimit
    {
      if |chartData| > DenseLimit then Month else WeekOfYear
    }
  }

  /** Above the dense limit one screen holds ten points; otherwise every point
      gets fifty units, and the chart is never narrower than the screen. */
  function ChartWidth(n: nat, screenWidth: real): (w: real)
    ensures n > DenseLimit ==> w * PointsPerScreenWidth == screenWidth * (n as real)
    ensures n <= DenseLimit ==>
              w >= screenWidth && w >= (n as real) * WidthPerPoint
              && (w == screenWidth || w == (n as real) * WidthPerPoint)
    ensures screenWidth >= 0.0 ==> w >= screenWidth
  {
    var count := n as real;
    if count > DenseLimit as real then
      var totalScreens := Max(1.0, count / PointsPerScreenWidth);
      assert totalScreens == count / PointsPerScreenWidth > 1.0;
      ScaleAtLeast(screenWidth, totalScreens);
      screenWidth * totalScreens
    else
      Max(count * WidthPerPoint, screenWidth)
  }

  lemma ScaleAtLeast(x: real, t: real)
    requires t >= 1.0
    ensures x >= 0.0 ==> x * t >= x
  {
    if x >= 0.0 {
      assert x * t - x == x * (t - 1.0);
    }
  }

  function Max(a: real, b: real): real {
    if a >= b then a else b
  }

  /** Fifty points is still dense: points drawn, weekly ticks, fifty units a point. */
  lemma FiftyPoints(vm: HistoryChartViewModel, screenWidth: real)
    requires |vm.chartData| == 50
    ensures vm.ShouldShowPoints() && vm.AxisStride() == WeekOfYear
    ensures vm.CalculateChartWidth(screenWidth) == Max(2500.0, screenWidth)
  {
  }

  /** Fifty-one points switch to monthly ticks, hide the points and size the
      chart at 5.1 screens. */
  lemma FiftyOnePoints(vm: HistoryChartViewModel, screenWidth: real)
    requires |vm.chartData| == 51
    ensures !vm.ShouldShowPoints() && vm.AxisStride() == Month
    ensures vm.CalculateChartWidth(screenWidth) == screenWidth * 5.1
  {
  }
}
