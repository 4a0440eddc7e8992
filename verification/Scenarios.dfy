/** Worked examples: integer-coordinate scripts, with the coordinates as
    parameters, run through extraction, alignment and the insights report, each
    stated as a lemma about the model. */
module Scenarios {
  import opened Wrappers
  import Decimal
  import Text
  import Seqs
  import ScriptParser
  import PathVisualizer

  type Waypoint = ScriptParser.Waypoint

  /** Extraction of a script whose only capture parses to `w`. */
  lemma ExtractOne(script: string, c: string, w: Waypoint)
    requires ScriptParser.Captures(script) == [c]
    requires ScriptParser.ParseCoords(c) == Success(w)
    ensures ScriptParser.ExtractCoordinates(script) == Success([w])
  {
    ExtractOneEntry(script, c, w);
    Singleton(ScriptParser.ExtractCoordinates(script).value, w);
  }

  lemma ExtractOneEntry(script: string, c: string, w: Waypoint)
    requires ScriptParser.Captures(script) == [c]
    requires ScriptParser.ParseCoords(c) == Success(w)
    ensures var r := ScriptParser.ExtractCoordinates(script);
      r.Success? && |r.value| == 1 && r.value[0] == w
  {
    assert ScriptParser.ParseCoords(ScriptParser.Captures(script)[0]).Success?;
  }

  /** Extraction of a script whose two captures parse to `w0` and `w1`. */
  lemma ExtractTwo(script: string, c0: string, c1: string, w0: Waypoint, w1: Waypoint)
    requires ScriptParser.Captures(script) == [c0, c1]
    requires ScriptParser.ParseCoords(c0) == Success(w0) && ScriptParser.ParseCoords(c1) == Success(w1)
    ensures ScriptParser.ExtractCoordinates(script) == Success([w0, w1])
  {
    ExtractTwoEntries(script, c0, c1, w0, w1);
    Pair(ScriptParser.ExtractCoordinates(script).value, w0, w1);
  }

  lemma ExtractTwoEntries(script: string, c0: string, c1: string, w0: Waypoint, w1: Waypoint)
    requires ScriptParser.Captures(script) == [c0, c1]
    requires ScriptParser.ParseCoords(c0) == Success(w0) && ScriptParser.ParseCoords(c1) == Success(w1)
    ensures var r := ScriptParser.ExtractCoordinates(script);
      r.Success? && |r.value| == 2 && r.value[0] == w0 && r.value[1] == w1
  {
    var cs := ScriptParser.Captures(script);
    assert ScriptParser.ParseCoords(cs[0]).Success? && ScriptParser.ParseCoords(cs[1]).Success?;
  }

  lemma Singleton<T>(xs: seq<T>, a: T)
    requires |xs| == 1 && xs[0] == a
    ensures xs == [a]
  {
  }

  lemma Pair<T>(xs: seq<T>, a: T, b: T)
    requires |xs| == 2 && xs[0] == a && xs[1] == b
    ensures xs == [a, b]
  {
  }

  /** A script that is the single call `CalcRobT([[x,y,z]` yields the one waypoint `[x, y, z]`. */
  lemma SingleIntegerCall(x: int, y: int, z: int)
    ensures ScriptParser.ExtractCoordinates(ScriptParser.Call(ScriptParser.IntTriple(x, y, z)))
         == Success([[x as real, y as real, z as real]])
  {
    var coords := ScriptParser.IntTriple(x, y, z);
    ScriptParser.IntTripleParses(x, y, z);
    ScriptParser.OneCallCaptures(coords);
    ExtractOne(ScriptParser.Call(coords), coords, [x as real, y as real, z as real]);
  }

  /** Two integer calls back to back yield their two waypoints in text order. */
  lemma TwoIntegerCalls(a: (int, int, int), b: (int, int, int))
    ensures ScriptParser.ExtractCoordinates(
              ScriptParser.Call(ScriptParser.IntTriple(a.0, a.1, a.2)) + ScriptParser.Call(ScriptParser.IntTriple(b.0, b.1, b.2)))
         == Success([[a.0 as real, a.1 as real, a.2 as real], [b.0 as real, b.1 as real, b.2 as real]])
  {
    var first, second := ScriptParser.IntTriple(a.0, a.1, a.2), ScriptParser.IntTriple(b.0, b.1, b.2);
    var script := ScriptParser.Call(first) + ScriptParser.Call(second);
    assert ScriptParser.Captures(script) == [first, second] by {
      ScriptParser.IntTripleParses(a.0, a.1, a.2);
      ScriptParser.IntTripleParses(b.0, b.1, b.2);
      ScriptParser.TwoCallsCapture(first, second);
    }
    assert ScriptParser.ParseCoords(first) == Success([a.0 as real, a.1 as real, a.2 as real]) by {
      ScriptParser.IntTripleParses(a.0, a.1, a.2);
    }
    assert ScriptParser.ParseCoords(second) == Success([b.0 as real, b.1 as real, b.2 as real]) by {
      ScriptParser.IntTripleParses(b.0, b.1, b.2);
    }
    ExtractTwo(script, first, second, [a.0 as real, a.1 as real, a.2 as real], [b.0 as real, b.1 as real, b.2 as real]);
  }

  const Name: string := "Pick 1"
  const Date: string := "2024-01-01 08:00:00"
  const Status: string := "\U{274C} FAIL: threshold"

  function TestCaseOf(master: string, test: string): PathVisualizer.TestCase {
    PathVisualizer.TestCase(Some(Name), Some(Date), Some(Status), Some(master), Some(test))
  }

  /** The visualizer built from two scripts whose extractions are known. */
  lemma VisualizerOf(master: string, test: string, now: string, masterMoves: seq<Waypoint>, testMoves: seq<Waypoint>)
    requires ScriptParser.ExtractCoordinates(master) == Success(masterMoves)
    requires ScriptParser.ExtractCoordinates(test) == Success(testMoves)
    ensures PathVisualizer.NewVisualizer(TestCaseOf(master, test), now)
         == Success(PathVisualizer.Visualizer(masterMoves, testMoves, Name, Date, Status))
  {
  }

  /** The report of a visualizer whose deviations are one row `d`. */
  lemma OneRowReport(v: PathVisualizer.Visualizer, d: PathVisualizer.Vec3)
    requires PathVisualizer.Deviations(v.masterMoves, v.testMoves) == Success([d])
    ensures PathVisualizer.InsightsReport(v).Success?
    ensures PathVisualizer.InsightsReport(v).value.maxDeviation
         == PathVisualizer.InsightsReport(v).value.meanDeviation
         == PathVisualizer.Vec3(PathVisualizer.Abs(d.x), PathVisualizer.Abs(d.y), PathVisualizer.Abs(d.z))
  {
    OneSampleStatistics(d);
  }

  /** With one sample, each axis's maximum and mean are that sample's absolute value. */
  lemma OneSampleStatistics(d: PathVisualizer.Vec3)
    ensures PathVisualizer.MaxDeviation([d])
         == PathVisualizer.MeanDeviation([d])
         == PathVisualizer.Vec3(PathVisualizer.Abs(d.x), PathVisualizer.Abs(d.y), PathVisualizer.Abs(d.z))
  {
    forall a: PathVisualizer.Axis
      ensures Seqs.Max(PathVisualizer.AbsSeries([d], a)) == PathVisualizer.Abs(d.Get(a))
      ensures Seqs.Mean(PathVisualizer.AbsSeries([d], a)) == PathVisualizer.Abs(d.Get(a))
    {
      assert PathVisualizer.AbsSeries([d], a) == [PathVisualizer.Abs(d.Get(a))];
      SingleSample(PathVisualizer.Abs(d.Get(a)));
    }
  }

  lemma SingleSample(r: real)
    ensures Seqs.Max([r]) == r && Seqs.Mean([r]) == r
  {
    assert Seqs.Sum([r]) == r + Seqs.Sum([]);
  }

  function Point(t: (int, int, int)): Waypoint {
    [t.0 as real, t.1 as real, t.2 as real]
  }

  function CallOf(t: (int, int, int)): string {
    ScriptParser.Call(ScriptParser.IntTriple(t.0, t.1, t.2))
  }

  /** One full waypoint against another: one deviation row, master minus test. */
  lemma OneMoveDeviation(m: (int, int, int), t: (int, int, int))
    ensures PathVisualizer.Deviations([Point(m)], [Point(t)])
         == Success([PathVisualizer.Vec3((m.0 - t.0) as real, (m.1 - t.1) as real, (m.2 - t.2) as real)])
  {
    var d := PathVisualizer.Vec3((m.0 - t.0) as real, (m.1 - t.1) as real, (m.2 - t.2) as real);
    assert PathVisualizer.Compatible([Point(m)], [Point(t)]);
    assert PathVisualizer.Deviations([Point(m)], [Point(t)]).value == [d];
  }

  /** A master script with one call against a test script with one call: the
      deviation is master minus test and, with one sample, the maximum and the
      mean on each axis are both that deviation's absolute value. */
  lemma OneMoveReport(m: (int, int, int), t: (int, int, int), now: string)
    ensures var v := PathVisualizer.NewVisualizer(TestCaseOf(CallOf(m), CallOf(t)), now);
      && v.Success?
      && v.value.masterMoves == [Point(m)] && v.value.testMoves == [Point(t)]
      && PathVisualizer.InsightsReport(v.value).Success?
      && PathVisualizer.InsightsReport(v.value).value.maxDeviation
         == PathVisualizer.InsightsReport(v.value).value.meanDeviation
         == PathVisualizer.Vec3(
              PathVisualizer.Abs((m.0 - t.0) as real), PathVisualizer.Abs((m.1 - t.1) as real), PathVisualizer.Abs((m.2 - t.2) as real))
  {
    var v := PathVisualizer.Visualizer([Point(m)], [Point(t)], Name, Date, Status);
    assert PathVisualizer.NewVisualizer(TestCaseOf(CallOf(m), CallOf(t)), now) == Success(v) by {
      SingleIntegerCall(m.0, m.1, m.2);
      SingleIntegerCall(t.0, t.1, t.2);
      VisualizerOf(CallOf(m), CallOf(t), now, [Point(m)], [Point(t)]);
    }
    OneMoveDeviation(m, t);
    OneRowReport(v, PathVisualizer.Vec3((m.0 - t.0) as real, (m.1 - t.1) as real, (m.2 - t.2) as real));
  }

  /** A master move beyond the end of the test path takes no part in the deviations. */
  lemma ExtraMasterMoveIgnored(a: (int, int, int), b: (int, int, int))
    ensures PathVisualizer.Deviations([Point(a), Point(b)], [Point(a)]) == Success([PathVisualizer.Vec3(0.0, 0.0, 0.0)])
  {
    PathVisualizer.DeviationsIgnoreUnaligned([Point(a), Point(b)], [Point(a)]);
    assert PathVisualizer.AlignedLength([Point(a), Point(b)], [Point(a)]) == 1;
    assert [Point(a), Point(b)][..1] == [Point(a)];
    assert [Point(a)][..1] == [Point(a)];
    OneMoveDeviation(a, a);
  }

  /** A master script with two calls against a test script holding only the
      first: two and one waypoints, one aligned move, and no deviation anywhere. */
  lemma LongerMasterReport(a: (int, int, int), b: (int, int, int), now: string)
    ensures var v := PathVisualizer.NewVisualizer(TestCaseOf(CallOf(a) + CallOf(b), CallOf(a)), now);
      && v.Success?
      && |v.value.masterMoves| == 2 && |v.value.testMoves| == 1
      && PathVisualizer.InsightsReport(v.value).Success?
      && PathVisualizer.InsightsReport(v.value).value.maxDeviation == PathVisualizer.Vec3(0.0, 0.0, 0.0)
      && PathVisualizer.InsightsReport(v.value).value.meanDeviation == PathVisualizer.Vec3(0.0, 0.0, 0.0)
  {
    var v := PathVisualizer.Visualizer([Point(a), Point(b)], [Point(a)], Name, Date, Status);
    assert PathVisualizer.NewVisualizer(TestCaseOf(CallOf(a) + CallOf(b), CallOf(a)), now) == Success(v) by {
      TwoIntegerCalls(a, b);
      SingleIntegerCall(a.0, a.1, a.2);
      VisualizerOf(CallOf(a) + CallOf(b), CallOf(a), now, [Point(a), Point(b)], [Point(a)]);
    }
    ExtraMasterMoveIgnored(a, b);
    OneRowReport(v, PathVisualizer.Vec3(0.0, 0.0, 0.0));
  }

  /** A script too short to hold `CalcRobT([[` has no match. */
  lemma ShortScriptHasNoMatch(script: string)
    requires |script| < |ScriptParser.Opener|
    ensures ScriptParser.ExtractCoordinates(script) == Success([])
  {
    ScriptParser.EmptyExactlyWithoutMatches(script);
  }

  /** A master script without any call gives no waypoints, and the report then
      fails with an empty alignment whatever the test script holds. */
  lemma NoMasterWaypoints(t: (int, int, int), now: string)
    ensures var v := PathVisualizer.NewVisualizer(TestCaseOf("MoveJ home", CallOf(t)), now);
      && v.Success?
      && v.value.masterMoves == []
      && |v.value.testMoves| == 1
      && PathVisualizer.InsightsReport(v.value) == Failure(EmptyAlignment)
  {
    ShortScriptHasNoMatch("MoveJ home");
    SingleIntegerCall(t.0, t.1, t.2);
  }

  /** Coordinate text with two tokens `a,b` is not rejected: it gives a
      two-entry waypoint. */
  lemma TwoTokenCapture(a: string, b: string)
    requires ',' !in a && ',' !in b
    requires Decimal.ParseNumber(a).Some? && Decimal.ParseNumber(b).Some?
    ensures ScriptParser.ParseCoords(a + "," + b) == Success([Decimal.ParseNumber(a).value, Decimal.ParseNumber(b).value])
  {
    TwoTokens(a, b);
    TwoTokensParse([a, b], Decimal.ParseNumber, [Decimal.ParseNumber(a).value, Decimal.ParseNumber(b).value]);
  }

  lemma TwoTokens(a: string, b: string)
    requires ',' !in a && ',' !in b
    ensures ScriptParser.Tokens(a + "," + b) == [a, b]
  {
    assert Text.Join([a, b], ',') == a + "," + b by {
      assert [a, b][1..] == [b];
    }
    Text.SplitJoin([a, b], ',');
  }

  lemma TwoTokensParse(tokens: seq<string>, number: string -> Option<real>, values: seq<real>)
    requires |tokens| == 2 && |values| == 2
    requires number(tokens[0]) == Some(values[0])
    requires number(tokens[1]) == Some(values[1])
    ensures ScriptParser.ParseTokens(tokens, number) == Success(values)
  {
    assert ScriptParser.ParseTokens(tokens, number).value == values;
  }

  /** That two-entry waypoint then stops the deviation analysis: a width-2 row
      does not broadcast against a width-3 one. */
  lemma TwoTokenWaypointMismatch()
    ensures PathVisualizer.Deviations([[1.5, 2.0]], [[1.0, 2.0, 3.0]]) == Failure(ShapeMismatch)
  {
    assert !PathVisualizer.BroadcastsToThree(2, 3);
  }
}
