/** The numeric core of `RobotPathVisualizer`: aligning the master and test
    waypoint lists, the per-move deviation `master - test` as numpy computes it,
    the per-axis maximum and mean absolute deviation of the insights report, and
    the data behind the deviation chart (per-axis absolute-deviation lines and a
    heatmap whose colour ticks are symmetric about 0).

    numpy's array semantics are made explicit: the aligned prefix of each list
    becomes a 2-D array only when all its rows have one width (ragged rows are
    refused), `master - test` broadcasts a width-1 row against a width-3 one, and
    the columns 0, 1 and 2 are read afterwards, so a difference narrower than three
    raises. Of the widths the parser can produce (one to three), only a difference
    three wide gets through; a wider one, which numpy would read, is refused here
    as well. An empty alignment gives a 1-D empty array, on which
    `deviations[:, 0]` raises. */
module PathVisualizer {
  import opened Wrappers
  import Seqs
  import ScriptParser

  type Waypoint = ScriptParser.Waypoint

  /** A coordinate axis and the column it is stored in. */
  datatype Axis = X | Y | Z {
    function Column(): nat {
      match this
      case X => 0
      case Y => 1
      case Z => 2
    }
  }

  /** One row of the deviation array, or a per-axis statistic. */
  datatype Vec3 = Vec3(x: real, y: real, z: real) {
    function Get(a: Axis): real {
      match a
      case X => x
      case Y => y
      case Z => z
    }
  }

  function Abs(r: real): real {
    if r < 0.0 then -r else r
  }

  /** Number of aligned moves: `min(len(master_moves), len(test_moves))`. */
  function AlignedLength(master: seq<Waypoint>, test: seq<Waypoint>): (n: nat)
    ensures n <= |master| && n <= |test|
    ensures n == |master| || n == |test|
  {
    Seqs.Min(|master|, |test|)
  }

  /** The first `n` rows all have `width` entries, so `np.array` makes a 2-D array of them. */
  predicate Uniform(ws: seq<Waypoint>, n: nat, width: nat)
    requires n <= |ws|
  {
    forall i | 0 <= i < n :: |ws[i]| == width
  }

  /** Row widths whose difference numpy broadcasts to exactly three columns. */
  predicate BroadcastsToThree(masterWidth: nat, testWidth: nat) {
    || (masterWidth == 3 && testWidth == 3)
    || (masterWidth == 1 && testWidth == 3)
    || (masterWidth == 3 && testWidth == 1)
  }

  /** The entry of a row that broadcasting pairs with column `a`: a width-1 row
      is stretched across all three columns. */
  function Component(w: Waypoint, a: Axis): real
    requires |w| == 1 || |w| == 3
  {
    if |w| == 1 then w[0] else w[a.Column()]
  }

  /** The aligned prefixes form arrays whose difference has three columns. */
  predicate Compatible(master: seq<Waypoint>, test: seq<Waypoint>)
    requires AlignedLength(master, test) > 0
  {
    var n := AlignedLength(master, test);
    && Uniform(master, n, |master[0]|)
    && Uniform(test, n, |test[0]|)
    && BroadcastsToThree(|master[0]|, |test[0]|)
  }

  /** Row `i` of `master - test`. */
  function Difference(m: Waypoint, t: Waypoint): Vec3
    requires |m| == 1 || |m| == 3
    requires |t| == 1 || |t| == 3
  {
    Vec3(Component(m, X) - Component(t, X), Component(m, Y) - Component(t, Y), Component(m, Z) - Component(t, Z))
  }

  /** `deviations = np.array(master[:n]) - np.array(test[:n])`, read through
      `deviations[:, 0..2]`: one row per aligned move, or the error numpy raises. */
  function Deviations(master: seq<Waypoint>, test: seq<Waypoint>): (r: Result<seq<Vec3>, Error>)
    ensures r.Success? ==> |r.value| == AlignedLength(master, test) > 0
    ensures r.Failure? ==> r.error == EmptyAlignment || r.error == ShapeMismatch
    ensures r == Failure(EmptyAlignment) <==> AlignedLength(master, test) == 0
    ensures r.Success? ==> Compatible(master, test)
    ensures r.Success? ==> forall i, a: Axis | 0 <= i < |r.value| ::
      r.value[i].Get(a) == Component(master[i], a) - Component(test[i], a)
  {
    var n := AlignedLength(master, test);
    if n == 0 then Failure(EmptyAlignment)
    else if !Compatible(master, test) then Failure(ShapeMismatch)
    else
      assert forall i | 0 <= i < n :: (|master[i]| == 1 || |master[i]| == 3) && (|test[i]| == 1 || |test[i]| == 3);
      Success(seq(n, i requires 0 <= i < n => Difference(master[i], test[i])))
  }

  /** When both aligned prefixes are three wide, deviation `i` on axis `a` is
      `master[i][a] - test[i][a]`. */
  lemma DeviationOfFullWaypoints(master: seq<Waypoint>, test: seq<Waypoint>, i: nat, a: Axis)
    requires i < AlignedLength(master, test)
    requires |master[i]| == 3 && |test[i]| == 3
    requires Deviations(master, test).Success?
    ensures Deviations(master, test).value[i].Get(a) == master[i][a.Column()] - test[i][a.Column()]
  {
  }

  /** Deviations succeed exactly when the alignment is non-empty and the shapes fit. */
  lemma DeviationsSucceed(master: seq<Waypoint>, test: seq<Waypoint>)
    ensures Deviations(master, test).Success? <==> AlignedLength(master, test) > 0 && Compatible(master, test)
  {
  }

  /** Waypoints past the aligned length never influence the deviations. */
  lemma DeviationsIgnoreUnaligned(master: seq<Waypoint>, test: seq<Waypoint>)
    ensures Deviations(master, test)
         == Deviations(master[..AlignedLength(master, test)], test[..AlignedLength(master, test)])
  {
    var n := AlignedLength(master, test);
    var m, t := master[..n], test[..n];
    assert AlignedLength(m, t) == n;
    if n > 0 {
      assert m[0] == master[0] && t[0] == test[0];
      assert forall i | 0 <= i < n :: m[i] == master[i] && t[i] == test[i];
      assert Compatible(m, t) == Compatible(master, test);
      if Compatible(master, test) {
        var d, e := Deviations(master, test).value, Deviations(m, t).value;
        assert |d| == |e|;
        assert forall i | 0 <= i < n :: d[i] == e[i];
        assert d == e;
      }
    }
  }

  /** Swapping master and test negates every deviation (and fails alike). */
  lemma DeviationsAntisymmetric(master: seq<Waypoint>, test: seq<Waypoint>)
    ensures Deviations(test, master).Success? <==> Deviations(master, test).Success?
    ensures Deviations(master, test).Success? ==>
      forall i, a: Axis | 0 <= i < |Deviations(master, test).value| ::
        Deviations(test, master).value[i].Get(a) == -Deviations(master, test).value[i].Get(a)
  {
    var n := AlignedLength(master, test);
    assert AlignedLength(test, master) == n;
    if n > 0 {
      assert Compatible(test, master) == Compatible(master, test);
    }
  }

  /** A path compared with itself deviates nowhere. */
  lemma SelfDeviationIsZero(path: seq<Waypoint>)
    requires Deviations(path, path).Success?
    ensures forall i, a: Axis | 0 <= i < |Deviations(path, path).value| :: Deviations(path, path).value[i].Get(a) == 0.0
  {
  }

  /** `np.abs(deviations[:, a])`: the line the chart draws for axis `a`. */
  function AbsSeries(devs: seq<Vec3>, a: Axis): (r: seq<real>)
    ensures |r| == |devs|
    ensures Seqs.AllNonNegative(r)
    ensures forall i | 0 <= i < |devs| :: r[i] == Abs(devs[i].Get(a))
  {
    seq(|devs|, i requires 0 <= i < |devs| => Abs(devs[i].Get(a)))
  }

  /** `np.max(np.abs(deviations[:, a]))` for each axis: on every axis, the
      largest absolute deviation, which some move attains. */
  function MaxDeviation(devs: seq<Vec3>): (m: Vec3)
    requires |devs| > 0
    ensures forall i, a: Axis | 0 <= i < |devs| :: Abs(devs[i].Get(a)) <= m.Get(a)
    ensures forall a: Axis :: exists i | 0 <= i < |devs| :: Abs(devs[i].Get(a)) == m.Get(a)
  {
    AxesMax(devs);
    Vec3(Seqs.Max(AbsSeries(devs, X)), Seqs.Max(AbsSeries(devs, Y)), Seqs.Max(AbsSeries(devs, Z)))
  }

  lemma AxesMax(devs: seq<Vec3>)
    requires |devs| > 0
    ensures var m := Vec3(Seqs.Max(AbsSeries(devs, X)), Seqs.Max(AbsSeries(devs, Y)), Seqs.Max(AbsSeries(devs, Z)));
      && (forall i, a: Axis | 0 <= i < |devs| :: Abs(devs[i].Get(a)) <= m.Get(a))
      && (forall a: Axis :: exists i | 0 <= i < |devs| :: Abs(devs[i].Get(a)) == m.Get(a))
  {
    var m := Vec3(Seqs.Max(AbsSeries(devs, X)), Seqs.Max(AbsSeries(devs, Y)), Seqs.Max(AbsSeries(devs, Z)));
    forall a: Axis
      ensures forall i | 0 <= i < |devs| :: Abs(devs[i].Get(a)) <= m.Get(a)
      ensures exists i | 0 <= i < |devs| :: Abs(devs[i].Get(a)) == m.Get(a)
    {
      match a
      case X => SeriesMax(devs, X);
      case Y => SeriesMax(devs, Y);
      case Z => SeriesMax(devs, Z);
    }
  }

  lemma SeriesMax(devs: seq<Vec3>, a: Axis)
    requires |devs| > 0
    ensures forall i | 0 <= i < |devs| :: Abs(devs[i].Get(a)) <= Seqs.Max(AbsSeries(devs, a))
    ensures exists i | 0 <= i < |devs| :: Abs(devs[i].Get(a)) == Seqs.Max(AbsSeries(devs, a))
  {
    var series := AbsSeries(devs, a);
    var k :| 0 <= k < |series| && series[k] == Seqs.Max(series);
    assert Abs(devs[k].Get(a)) == Seqs.Max(series);
  }

  /** `np.mean(np.abs(deviations[:, a]))` for each axis: on every axis, the sum
      of the absolute deviations divided by the number of moves. */
  function MeanDeviation(devs: seq<Vec3>): (m: Vec3)
    requires |devs| > 0
    ensures forall a: Axis :: m.Get(a) == Seqs.Sum(AbsSeries(devs, a)) / |devs| as real
  {
    Vec3(Seqs.Mean(AbsSeries(devs, X)), Seqs.Mean(AbsSeries(devs, Y)), Seqs.Mean(AbsSeries(devs, Z)))
  }

  /** On every axis the maximum absolute deviation is at least the mean, which is
      at least zero. */
  lemma MaxAtLeastMean(devs: seq<Vec3>, a: Axis)
    requires |devs| > 0
    ensures MaxDeviation(devs).Get(a) >= MeanDeviation(devs).Get(a) >= 0.0
  {
    Seqs.MeanBetweenZeroAndMax(AbsSeries(devs, a));
  }

  lemma AxesMaxAtLeastMean(devs: seq<Vec3>)
    requires |devs| > 0
    ensures forall a: Axis :: MaxDeviation(devs).Get(a) >= MeanDeviation(devs).Get(a) >= 0.0
  {
    forall a: Axis
      ensures MaxDeviation(devs).Get(a) >= MeanDeviation(devs).Get(a) >= 0.0
    {
      MaxAtLeastMean(devs, a);
    }
  }

  /** What `generate_insights_report` returns. */
  datatype Insights = Insights(
    testName: string,
    testDate: string,
    testStatus: string,
    maxDeviation: Vec3,
    meanDeviation: Vec3)

  /** The record handed to the constructor (`test_case`): each key may be absent. */
  datatype TestCase = TestCase(
    testname: Option<string>,
    startdate: Option<string>,
    testStatus: Option<string>,
    masterScript: Option<string>,
    testScript: Option<string>)

  /** A constructed `RobotPathVisualizer`. */
  datatype Visualizer = Visualizer(
    masterMoves: seq<Waypoint>,
    testMoves: seq<Waypoint>,
    testName: string,
    testDate: string,
    testStatus: string)

  const DefaultName: string := "Unknown Test"

  /** `RobotPathVisualizer(test_case)`. The current time, which the source formats
      as the default date, is the parameter `now`. Both scripts are required keys:
      the master script is looked up and parsed before the test script. */
  function NewVisualizer(tc: TestCase, now: string): (r: Result<Visualizer, Error>)
    ensures tc.masterScript.None? ==> r == Failure(MissingKey("master_script"))
    ensures tc.masterScript.Some? && ScriptParser.ExtractCoordinates(tc.masterScript.value).Failure? ==>
      r == Failure(ScriptParser.ExtractCoordinates(tc.masterScript.value).error)
    ensures (tc.masterScript.Some? && ScriptParser.ExtractCoordinates(tc.masterScript.value).Success?
             && tc.testScript.None?) ==> r == Failure(MissingKey("test_script"))
    ensures (tc.masterScript.Some? && ScriptParser.ExtractCoordinates(tc.masterScript.value).Success?
             && tc.testScript.Some? && ScriptParser.ExtractCoordinates(tc.testScript.value).Failure?) ==>
      r == Failure(ScriptParser.ExtractCoordinates(tc.testScript.value).error)
    ensures r.Success? <==>
      && tc.masterScript.Some? && ScriptParser.ExtractCoordinates(tc.masterScript.value).Success?
      && tc.testScript.Some? && ScriptParser.ExtractCoordinates(tc.testScript.value).Success?
    ensures r.Success? ==>
      && r.value.masterMoves == ScriptParser.ExtractCoordinates(tc.masterScript.value).value
      && r.value.testMoves == ScriptParser.ExtractCoordinates(tc.testScript.value).value
      && r.value.testName == (if tc.testname.Some? then tc.testname.value else DefaultName)
      && r.value.testDate == (if tc.startdate.Some? then tc.startdate.value else now)
      && r.value.testStatus == (if tc.testStatus.Some? then tc.testStatus.value else "")
  {
    if tc.masterScript.None? then Failure(MissingKey("master_script"))
    else
      var masterMoves :- ScriptParser.ExtractCoordinates(tc.masterScript.value);
      if tc.testScript.None? then Failure(MissingKey("test_script"))
      else
        var testMoves :- ScriptParser.ExtractCoordinates(tc.testScript.value);
        Success(Visualizer(
          masterMoves,
          testMoves,
          tc.testname.GetOr(DefaultName),
          tc.startdate.GetOr(now),
          tc.testStatus.GetOr("")))
  }

  /** `generate_insights_report()`: the record's identifying fields unchanged and
      the per-axis statistics of the deviations, or the error numpy raises. */
  function InsightsReport(v: Visualizer): (r: Result<Insights, Error>)
    ensures r.Success? <==> Deviations(v.masterMoves, v.testMoves).Success?
    ensures r.Failure? ==> r.error == Deviations(v.masterMoves, v.testMoves).error
    ensures r.Success? ==>
      && r.value.testName == v.testName
      && r.value.testDate == v.testDate
      && r.value.testStatus == v.testStatus
    ensures r.Success? ==> forall a: Axis :: r.value.maxDeviation.Get(a) >= r.value.meanDeviation.Get(a) >= 0.0
    ensures r.Success? ==>
      && r.value.maxDeviation == MaxDeviation(Deviations(v.masterMoves, v.testMoves).value)
      && r.value.meanDeviation == MeanDeviation(Deviations(v.masterMoves, v.testMoves).value)
  {
    var devs :- Deviations(v.masterMoves, v.testMoves);
    AxesMaxAtLeastMean(devs);
    Success(Insights(v.testName, v.testDate, v.testStatus, MaxDeviation(devs), MeanDeviation(devs)))
  }

  /** `value` is the largest `|master[i][a] - test[i][a]|` over the aligned
      moves, attained by one of them. */
  predicate IsLargestDifference(master: seq<Waypoint>, test: seq<Waypoint>, a: Axis, value: real)
    requires forall i | 0 <= i < AlignedLength(master, test) :: (|master[i]| == 1 || |master[i]| == 3) && (|test[i]| == 1 || |test[i]| == 3)
  {
    && (forall i | 0 <= i < AlignedLength(master, test) :: Abs(Component(master[i], a) - Component(test[i], a)) <= value)
    && (exists i | 0 <= i < AlignedLength(master, test) :: Abs(Component(master[i], a) - Component(test[i], a)) == value)
  }

  /** The report's maximum on each axis is the largest `|master[i][a] - test[i][a]|`
      over the aligned moves, attained by one of them. */
  lemma ReportMaxIsLargestDifference(v: Visualizer, a: Axis)
    requires InsightsReport(v).Success?
    ensures Deviations(v.masterMoves, v.testMoves).Success?
    ensures IsLargestDifference(v.masterMoves, v.testMoves, a, InsightsReport(v).value.maxDeviation.Get(a))
  {
    ReportMaxIsAxisMax(v);
    MaxOfDifferences(v.masterMoves, v.testMoves, InsightsReport(v).value.maxDeviation, a);
  }

  lemma ReportMaxIsAxisMax(v: Visualizer)
    requires InsightsReport(v).Success?
    ensures Deviations(v.masterMoves, v.testMoves).Success?
    ensures InsightsReport(v).value.maxDeviation == MaxDeviation(Deviations(v.masterMoves, v.testMoves).value)
  {
  }

  lemma MaxOfDifferences(master: seq<Waypoint>, test: seq<Waypoint>, m: Vec3, a: Axis)
    requires Deviations(master, test).Success?
    requires m == MaxDeviation(Deviations(master, test).value)
    ensures IsLargestDifference(master, test, a, m.Get(a))
  {
    var devs := Deviations(master, test).value;
    forall i | 0 <= i < |devs|
      ensures Abs(Component(master[i], a) - Component(test[i], a)) <= m.Get(a)
    {
      assert devs[i].Get(a) == Component(master[i], a) - Component(test[i], a);
    }
    var k :| 0 <= k < |devs| && Abs(devs[k].Get(a)) == m.Get(a);
    assert devs[k].Get(a) == Component(master[k], a) - Component(test[k], a);
  }

  /** The report's mean on each axis is the average `|master[i][a] - test[i][a]|`
      over the aligned moves: their sum divided by their number. */
  lemma ReportMeanIsAverage(v: Visualizer, a: Axis)
    requires InsightsReport(v).Success?
    ensures var n := AlignedLength(v.masterMoves, v.testMoves);
      InsightsReport(v).value.meanDeviation.Get(a)
        == Seqs.Sum(seq(n, i requires 0 <= i < n => Abs(Component(v.masterMoves[i], a) - Component(v.testMoves[i], a)))) / n as real
  {
    AbsSeriesOfDeviations(v, a);
  }

  /** The absolute-deviation series of an axis, written with the waypoints. */
  lemma AbsSeriesOfDeviations(v: Visualizer, a: Axis)
    requires Deviations(v.masterMoves, v.testMoves).Success?
    ensures var n := AlignedLength(v.masterMoves, v.testMoves);
      AbsSeries(Deviations(v.masterMoves, v.testMoves).value, a)
        == seq(n, i requires 0 <= i < n => Abs(Component(v.masterMoves[i], a) - Component(v.testMoves[i], a)))
  {
  }

  /** Waypoints past the aligned length never influence the report. */
  lemma ReportIgnoresUnaligned(v: Visualizer)
    ensures InsightsReport(v)
         == InsightsReport(v.(masterMoves := v.masterMoves[..AlignedLength(v.masterMoves, v.testMoves)],
                              testMoves := v.testMoves[..AlignedLength(v.masterMoves, v.testMoves)]))
  {
    DeviationsIgnoreUnaligned(v.masterMoves, v.testMoves);
  }

  /** The data of `plot_deviation_analysis()`: one absolute-deviation line per
      axis (X, Y, Z), the heatmap rows, and the colour-bar tick values. */
  datatype Chart = Chart(axisLines: seq<seq<real>>, heatmap: seq<Vec3>, colorTicks: seq<real>)

  /** `np.abs(deviations)` flattened row by row: entry `3 * i + c` is row `i`, column `c`. */
  function AbsEntries(devs: seq<Vec3>): (r: seq<real>)
    ensures |r| == 3 * |devs|
    ensures forall i, a: Axis | 0 <= i < |devs| :: r[3 * i + a.Column()] == Abs(devs[i].Get(a))
  {
    seq(3 * |devs|, k requires 0 <= k < 3 * |devs| => Abs(devs[k / 3].Get(AxisOf(k % 3))))
  }

  function AxisOf(c: nat): Axis
    requires c < 3
  {
    if c == 0 then X else if c == 1 then Y else Z
  }

  /** `np.max(np.abs(deviations))`: the largest absolute entry of the whole
      array, which some cell attains, so it is not negative. */
  function HeatmapPeak(devs: seq<Vec3>): (peak: real)
    requires |devs| > 0
    ensures peak >= 0.0
    ensures forall i, a: Axis | 0 <= i < |devs| :: Abs(devs[i].Get(a)) <= peak
    ensures exists i, a: Axis | 0 <= i < |devs| :: Abs(devs[i].Get(a)) == peak
  {
    EntriesMax(devs);
    Seqs.Max(AbsEntries(devs))
  }

  function Max3(a: real, b: real, c: real): real {
    if a >= b && a >= c then a else if b >= c then b else c
  }

  /** The heatmap's peak is the largest of the three per-axis maxima of the report. */
  lemma PeakIsLargestAxisMax(devs: seq<Vec3>)
    requires |devs| > 0
    ensures HeatmapPeak(devs) == Max3(MaxDeviation(devs).x, MaxDeviation(devs).y, MaxDeviation(devs).z)
  {
    var m := MaxDeviation(devs);
    AxisMaxAtMostPeak(devs, X);
    AxisMaxAtMostPeak(devs, Y);
    AxisMaxAtMostPeak(devs, Z);
    PeakAtMostSomeAxisMax(devs);
  }

  lemma PeakAtMostSomeAxisMax(devs: seq<Vec3>)
    requires |devs| > 0
    ensures var m := MaxDeviation(devs);
      HeatmapPeak(devs) <= m.x || HeatmapPeak(devs) <= m.y || HeatmapPeak(devs) <= m.z
  {
    var m := MaxDeviation(devs);
    var i, a :| 0 <= i < |devs| && Abs(devs[i].Get(a)) == HeatmapPeak(devs);
    match a
    case X => assert HeatmapPeak(devs) <= m.x;
    case Y => assert HeatmapPeak(devs) <= m.y;
    case Z => assert HeatmapPeak(devs) <= m.z;
  }

  lemma AxisMaxAtMostPeak(devs: seq<Vec3>, a: Axis)
    requires |devs| > 0
    ensures MaxDeviation(devs).Get(a) <= HeatmapPeak(devs)
  {
    var i :| 0 <= i < |devs| && Abs(devs[i].Get(a)) == MaxDeviation(devs).Get(a);
  }

  /** `plot_deviation_analysis()`: the chart data, or the error numpy raises on
      the same arrays as the report. */
  function DeviationChart(v: Visualizer): (r: Result<Chart, Error>)
    ensures r.Success? <==> Deviations(v.masterMoves, v.testMoves).Success?
    ensures r.Success? ==>
      && |r.value.axisLines| == 3
      && |r.value.colorTicks| == 3
      && r.value.heatmap == Deviations(v.masterMoves, v.testMoves).value
    ensures r.Success? ==> r.value == ChartFor(r.value.heatmap)
  {
    var devs :- Deviations(v.masterMoves, v.testMoves);
    Success(ChartFor(devs))
  }

  /** The chart drawn from a non-empty deviation array: line `a` plots, move by
      move, the absolute deviation on axis `a`. */
  function ChartFor(devs: seq<Vec3>): (c: Chart)
    requires |devs| > 0
    ensures |c.axisLines| == 3 && |c.colorTicks| == 3 && c.heatmap == devs
    ensures forall a: Axis :: |c.axisLines[a.Column()]| == |devs|
    ensures forall i, a: Axis | 0 <= i < |devs| :: c.axisLines[a.Column()][i] == Abs(devs[i].Get(a))
  {
    var peak := HeatmapPeak(devs);
    Chart([AbsSeries(devs, X), AbsSeries(devs, Y), AbsSeries(devs, Z)], devs, [-peak, 0.0, peak])
  }

  /** The colour ticks are `-M, 0, M` with `M >= 0`, and `M` bounds every heatmap
      cell and is reached by one: the colour scale is symmetric about zero and
      just wide enough. */
  lemma ChartTicksSymmetric(devs: seq<Vec3>)
    requires |devs| > 0
    ensures var c := ChartFor(devs);
      && c.colorTicks[0] == -c.colorTicks[2]
      && c.colorTicks[1] == 0.0
      && c.colorTicks[2] >= 0.0
      && (forall i, a: Axis | 0 <= i < |c.heatmap| :: Abs(c.heatmap[i].Get(a)) <= c.colorTicks[2])
      && (exists i, a: Axis | 0 <= i < |c.heatmap| :: Abs(c.heatmap[i].Get(a)) == c.colorTicks[2])
  {
  }

  lemma EntriesMax(devs: seq<Vec3>)
    requires |devs| > 0
    ensures Seqs.Max(AbsEntries(devs)) >= 0.0
    ensures forall i, a: Axis | 0 <= i < |devs| :: Abs(devs[i].Get(a)) <= Seqs.Max(AbsEntries(devs))
    ensures exists i, a: Axis | 0 <= i < |devs| :: Abs(devs[i].Get(a)) == Seqs.Max(AbsEntries(devs))
  {
    var entries := AbsEntries(devs);
    var peak := Seqs.Max(entries);
    assert entries[0] == Abs(devs[0].Get(X));
    forall i, a: Axis | 0 <= i < |devs| ensures Abs(devs[i].Get(a)) <= peak {
      assert entries[3 * i + a.Column()] == Abs(devs[i].Get(a));
    }
    var k :| 0 <= k < |entries| && entries[k] == peak;
    var i, a := k / 3, AxisOf(k % 3);
    assert k == 3 * i + a.Column();
    assert Abs(devs[i].Get(a)) == peak;
  }

  /** Line `a` of the chart is the absolute-deviation series of axis `a`: its
      maximum and mean are the report's statistics for that axis, and its
      largest value is at most the colour-scale peak. */
  lemma ChartLinesMatchReport(devs: seq<Vec3>, a: Axis)
    requires |devs| > 0
    ensures var line := ChartFor(devs).axisLines[a.Column()];
      && |line| == |devs|
      && Seqs.Max(line) == MaxDeviation(devs).Get(a)
      && Seqs.Mean(line) == MeanDeviation(devs).Get(a)
      && Seqs.Max(line) <= ChartFor(devs).colorTicks[2]
  {
    PeakIsLargestAxisMax(devs);
  }
}
