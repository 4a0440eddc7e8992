/** The decision logic of the dashboard page (`app.py`): how a test record's
    status text is classified, how the test name gives its category, which rows
    the sidebar selections keep, and when the deviation analysis runs for the
    selected test. */
module Dashboard {
  import opened Wrappers
  import Text
  import Seqs
  import PathVisualizer
  import ScriptParser

  datatype Status = Passed | Failed

  /** The marker whose presence anywhere in the status text means failure. */
  const FailMarker: string := "FAIL"

  /** The phrase that marks a failure caused by scripts of different lengths. */
  const UnequalPhrase: string := "Files have unequal lengths"

  /** `'Failed' if 'FAIL' in x else 'Passed'`. */
  function StatusOf(testStatus: string): (st: Status)
    ensures st == Failed <==> exists i: nat :: Text.OccursAt(testStatus, FailMarker, i)
  {
    if Text.Contains(testStatus, FailMarker) then Failed else Passed
  }

  /** `x.split(' ')[0] if x else 'Unknown'`: the text before the first space of a
      non-empty name, which is the whole name when it has no space. */
  function CategoryOf(testname: string): (c: string)
    ensures testname == [] ==> c == "Unknown"
    ensures testname != [] ==> c <= testname && ' ' !in c && (|c| == |testname| || testname[|c|] == ' ')
  {
    if testname == [] then "Unknown"
    else
      Text.SplitHead(testname, ' ');
      Text.Split(testname, ' ')[0]
  }

  /** The category is the only prefix of the name that is free of spaces and
      ends at a space or at the end of the name. */
  lemma CategoryIsFirstWord(word: string, rest: string)
    requires word != [] && ' ' !in word
    ensures CategoryOf(word) == word
    ensures CategoryOf(word + " " + rest) == word
  {
    var named := word + " " + rest;
    assert forall j | 0 <= j < |word| :: named[j] == word[j];
    assert named[|word|] == ' ';
    Text.SplitHead(named, ' ');
    assert Text.IndexOf(named, ' ') == |word|;
    assert named[..|word|] == word;
    Text.SplitHead(word, ' ');
  }

  /** The failure types the sidebar offers. */
  datatype FailureKind = UnequalLengths | OverThreshold

  /** `get_failure_type(test_status)`. */
  function FailureTypeOf(testStatus: string): (r: Option<FailureKind>)
    ensures r.None? <==> !exists i: nat :: Text.OccursAt(testStatus, FailMarker, i)
    ensures r == Some(UnequalLengths) <==>
      && (exists i: nat :: Text.OccursAt(testStatus, FailMarker, i))
      && (exists i: nat :: Text.OccursAt(testStatus, UnequalPhrase, i))
  {
    if !Text.Contains(testStatus, FailMarker) then None
    else if Text.Contains(testStatus, UnequalPhrase) then Some(UnequalLengths)
    else Some(OverThreshold)
  }

  /** A record has a failure type exactly when it is classified as failed. */
  lemma FailureTypeExactlyWhenFailed(testStatus: string)
    ensures FailureTypeOf(testStatus).Some? <==> StatusOf(testStatus) == Failed
  {
  }

  /** A calendar day, the `date` column derived from `startdate`. */
  type Day = int

  /** One row of the uploaded log. */
  datatype TestRecord = TestRecord(
    testname: string,
    startdate: string,
    date: Day,
    testStatus: string,
    masterScript: Option<string>,
    testScript: Option<string>)

  /** The status radio button: `Home` shows every status. */
  datatype StatusChoice = Home | Only(status: Status)

  /** What the sidebar selections ask for, row by row: the selected day; when a
      status is chosen, that status; when `Failed` is chosen with a non-empty
      list of failure types, one of those types. */
  predicate Selected(rec: TestRecord, day: Day, choice: StatusChoice, failureTypes: seq<FailureKind>) {
    && rec.date == day
    && (choice.Only? ==> StatusOf(rec.testStatus) == choice.status)
    && (choice == Only(Failed) && |failureTypes| > 0 ==>
          FailureTypeOf(rec.testStatus).Some? && FailureTypeOf(rec.testStatus).value in failureTypes)
  }

  /** `df[df['date'] == selected_dates]`: the rows of that day, in order, each
      as often as in the log. */
  function OnDay(rows: seq<TestRecord>, day: Day): (r: seq<TestRecord>)
    ensures Seqs.IsSubsequence(r, rows)
    ensures forall rec | rec in rows :: multiset(r)[rec] == if rec.date == day then multiset(rows)[rec] else 0
  {
    Seqs.Filter(rows, (rec: TestRecord) => rec.date == day)
  }

  /** `filtered_df[filtered_df['status'] == selected_status]`: the rows with that
      status, in order, each as often as in the input. */
  function WithStatus(rows: seq<TestRecord>, status: Status): (r: seq<TestRecord>)
    ensures Seqs.IsSubsequence(r, rows)
    ensures forall rec | rec in rows ::
      multiset(r)[rec] == if StatusOf(rec.testStatus) == status then multiset(rows)[rec] else 0
  {
    Seqs.Filter(rows, (rec: TestRecord) => StatusOf(rec.testStatus) == status)
  }

  /** `filtered_df[filtered_df['failure_type'].isin(selected_failure_types)]`:
      a row without a failure type is never in the list. */
  function OfFailureType(rows: seq<TestRecord>, failureTypes: seq<FailureKind>): (r: seq<TestRecord>)
    ensures Seqs.IsSubsequence(r, rows)
    ensures forall rec | rec in rows ::
      multiset(r)[rec] == if FailureTypeOf(rec.testStatus).Some? && FailureTypeOf(rec.testStatus).value in failureTypes
                          then multiset(rows)[rec] else 0
  {
    Seqs.Filter(rows, (rec: TestRecord) => FailureTypeOf(rec.testStatus).Some? && FailureTypeOf(rec.testStatus).value in failureTypes)
  }

  /** The filter chain of the sidebar, applied in the source's order. */
  function FilterRows(rows: seq<TestRecord>, day: Day, choice: StatusChoice, failureTypes: seq<FailureKind>): (r: seq<TestRecord>)
    ensures Seqs.IsSubsequence(r, rows)
    ensures forall rec | rec in r :: rec.date == day
    ensures choice.Only? ==> forall rec | rec in r :: StatusOf(rec.testStatus) == choice.status
    ensures forall rec | rec in rows :: rec in r <==> Selected(rec, day, choice, failureTypes)
  {
    var byDay := OnDay(rows, day);
    if choice.Home? then byDay
    else
      var byStatus := WithStatus(byDay, choice.status);
      Seqs.SubsequenceTransitive(byStatus, byDay, rows);
      if choice.status == Failed && |failureTypes| > 0 then
        var byType := OfFailureType(byStatus, failureTypes);
        Seqs.SubsequenceTransitive(byType, byStatus, rows);
        byType
      else byStatus
  }

  /** The chain of filters is one filter by `Selected`: the rows kept are exactly
      the selected rows, in their original order. */
  lemma FilterRowsIsOneFilter(rows: seq<TestRecord>, day: Day, choice: StatusChoice, failureTypes: seq<FailureKind>)
    ensures FilterRows(rows, day, choice, failureTypes)
         == Seqs.Filter(rows, (rec: TestRecord) => Selected(rec, day, choice, failureTypes))
  {
    var onDay := (rec: TestRecord) => rec.date == day;
    var selected := (rec: TestRecord) => Selected(rec, day, choice, failureTypes);
    if choice.Home? {
      Seqs.FilterFilter(rows, onDay, (rec: TestRecord) => true, selected);
      Seqs.FilterAllKept(OnDay(rows, day), (rec: TestRecord) => true);
    } else {
      var status := (rec: TestRecord) => StatusOf(rec.testStatus) == choice.status;
      var dayAndStatus := (rec: TestRecord) => rec.date == day && StatusOf(rec.testStatus) == choice.status;
      Seqs.FilterFilter(rows, onDay, status, dayAndStatus);
      if choice.status == Failed && |failureTypes| > 0 {
        var ofType := (rec: TestRecord) => FailureTypeOf(rec.testStatus).Some? && FailureTypeOf(rec.testStatus).value in failureTypes;
        Seqs.FilterFilter(rows, dayAndStatus, ofType, selected);
      } else {
        Seqs.FilterFilter(rows, dayAndStatus, (rec: TestRecord) => true, selected);
        Seqs.FilterAllKept(Seqs.Filter(rows, dayAndStatus), (rec: TestRecord) => true);
      }
    }
  }

  /** Selecting both failure types (the multiselect's default) keeps the same rows
      as selecting none: every failed row has one of the two types. */
  lemma BothFailureTypesKeepAllFailed(rows: seq<TestRecord>, day: Day)
    ensures FilterRows(rows, day, Only(Failed), [UnequalLengths, OverThreshold])
         == FilterRows(rows, day, Only(Failed), [])
  {
    var byStatus := WithStatus(OnDay(rows, day), Failed);
    forall i | 0 <= i < |byStatus|
      ensures FailureTypeOf(byStatus[i].testStatus).Some? && FailureTypeOf(byStatus[i].testStatus).value in [UnequalLengths, OverThreshold]
    {
      assert byStatus[i] in byStatus;
    }
    Seqs.FilterAllKept(byStatus, (rec: TestRecord) => FailureTypeOf(rec.testStatus).Some? && FailureTypeOf(rec.testStatus).value in [UnequalLengths, OverThreshold]);
  }

  /** The exact status text for which the details page skips deviation analysis. */
  const UnequalLengthsStatus: string := "\U{274C} " + FailMarker + ": " + UnequalPhrase + "."

  /** `test_case['test_status'] == "❌ FAIL: Files have unequal lengths."`: the
      guard holds only for a status classified as an unequal-lengths failure. */
  predicate SkipsDeviationAnalysis(testStatus: string): (b: bool)
    ensures b ==> StatusOf(testStatus) == Failed && FailureTypeOf(testStatus) == Some(UnequalLengths)
  {
    UnequalLengthsStatusClassified();
    testStatus == UnequalLengthsStatus
  }

  /** The guarded text contains both `FAIL` and the unequal-lengths phrase. */
  lemma UnequalLengthsStatusClassified()
    ensures StatusOf(UnequalLengthsStatus) == Failed
    ensures FailureTypeOf(UnequalLengthsStatus) == Some(UnequalLengths)
  {
    var pre := "\U{274C} ";
    var status := UnequalLengthsStatus;
    assert Text.OccursAt(status, FailMarker, |pre|) by {
      assert status == pre + FailMarker + (": " + UnequalPhrase + ".");
      OccursInConcat(pre, FailMarker, ": " + UnequalPhrase + ".");
    }
    assert Text.OccursAt(status, UnequalPhrase, |pre + FailMarker + ": "|) by {
      OccursInConcat(pre + FailMarker + ": ", UnequalPhrase, ".");
    }
  }

  /** The converse fails: a status the classifier files under unequal lengths
      can still go through deviation analysis, because the guard compares the
      whole text while the classifier looks for substrings. */
  lemma GuardStricterThanClassification()
    ensures exists s :: FailureTypeOf(s) == Some(UnequalLengths) && !SkipsDeviationAnalysis(s)
  {
    var s := FailMarker + ": " + UnequalPhrase;
    assert s == [] + FailMarker + (": " + UnequalPhrase);
    OccursInConcat([], FailMarker, ": " + UnequalPhrase);
    assert s == (FailMarker + ": ") + UnequalPhrase + [];
    OccursInConcat(FailMarker + ": ", UnequalPhrase, []);
    assert FailureTypeOf(s) == Some(UnequalLengths);
    assert s[0] != UnequalLengthsStatus[0];
    assert !SkipsDeviationAnalysis(s);
  }

  lemma OccursInConcat(pre: string, sub: string, post: string)
    ensures Text.OccursAt(pre + sub + post, sub, |pre|)
  {
    assert (pre + sub + post)[|pre|..|pre| + |sub|] == sub;
  }

  /** What the details page shows in its analysis section. */
  datatype Analysis =
    | Skipped                                                       // the unequal-lengths guard held
    | Shown(report: PathVisualizer.Insights, chart: PathVisualizer.Chart)
    | Broken(tableShown: Option<PathVisualizer.Insights>, error: Error)  // an error banner, after the table when it was already written

  /** `to_dict()` of the selected row, as the visualizer receives it. */
  function AsTestCase(rec: TestRecord): PathVisualizer.TestCase {
    PathVisualizer.TestCase(Some(rec.testname), Some(rec.startdate), Some(rec.testStatus), rec.masterScript, rec.testScript)
  }

  /** `plot_3d_paths()` reads columns 0, 1 and 2 of each full move list, so both
      lists must be non-empty rectangular arrays at least three wide: then every
      move of both paths has those three columns. */
  predicate PathsPlottable(master: seq<PathVisualizer.Waypoint>, test: seq<PathVisualizer.Waypoint>): (b: bool)
    ensures b ==> |master| > 0 && forall i | 0 <= i < |master| :: |master[i]| >= 3
    ensures b ==> |test| > 0 && forall i | 0 <= i < |test| :: |test[i]| >= 3
  {
    && |master| > 0 && PathVisualizer.Uniform(master, |master|, |master[0]|) && |master[0]| >= 3
    && |test| > 0 && PathVisualizer.Uniform(test, |test|, |test[0]|) && |test[0]| >= 3
  }

  /** Lines 88-146 of the details page: the guard, then the visualizer, the
      insights table, the 3D plot and the deviation chart, any exception turning
      into an error banner. */
  function DeviationAnalysis(rec: TestRecord, now: string): (r: Analysis)
    ensures r.Skipped? <==> SkipsDeviationAnalysis(rec.testStatus)
    ensures r.Shown? ==>
      && r.report.testName == rec.testname
      && r.report.testDate == rec.startdate
      && r.report.testStatus == rec.testStatus
      && |r.chart.heatmap| > 0
      && forall a: PathVisualizer.Axis :: r.report.maxDeviation.Get(a) >= r.report.meanDeviation.Get(a) >= 0.0
    ensures r.Broken? && r.tableShown.Some? ==> r.tableShown.value.testStatus == rec.testStatus
    ensures var built := PathVisualizer.NewVisualizer(AsTestCase(rec), now);
      r.Shown? <==>
        && !SkipsDeviationAnalysis(rec.testStatus)
        && built.Success?
        && PathVisualizer.InsightsReport(built.value).Success?
        && PathsPlottable(built.value.masterMoves, built.value.testMoves)
    ensures var built := PathVisualizer.NewVisualizer(AsTestCase(rec), now);
      r.Shown? ==>
        && r.report == PathVisualizer.InsightsReport(built.value).value
        && r.chart == PathVisualizer.DeviationChart(built.value).value
    ensures var built := PathVisualizer.NewVisualizer(AsTestCase(rec), now);
      r.Broken? ==>
        if built.Failure? then r == Broken(None, built.error)
        else if PathVisualizer.InsightsReport(built.value).Failure? then r == Broken(None, PathVisualizer.InsightsReport(built.value).error)
        else r == Broken(Some(PathVisualizer.InsightsReport(built.value).value), ShapeMismatch)
  {
    if SkipsDeviationAnalysis(rec.testStatus) then Skipped
    else
      match PathVisualizer.NewVisualizer(AsTestCase(rec), now)
      case Failure(e) => Broken(None, e)
      case Success(v) =>
        match PathVisualizer.InsightsReport(v)
        case Failure(e) => Broken(None, e)
        case Success(report) =>
          if !PathsPlottable(v.masterMoves, v.testMoves) then Broken(Some(report), ShapeMismatch)
          else
            match PathVisualizer.DeviationChart(v)
            case Failure(e) => Broken(Some(report), e)
            case Success(chart) => Shown(report, chart)
  }

  /** The page shows the analysis exactly when the guard lets the record through,
      both scripts are present and extract, the aligned moves subtract, and both
      full paths can be plotted; every aligned move of a shown analysis is then
      three wide, so the chart compares full waypoints column by column. */
  lemma ShownExactlyWhenScriptsCompare(rec: TestRecord, now: string)
    ensures var master := rec.masterScript;
      var test := rec.testScript;
      DeviationAnalysis(rec, now).Shown? <==>
        && !SkipsDeviationAnalysis(rec.testStatus)
        && master.Some? && ScriptParser.ExtractCoordinates(master.value).Success?
        && test.Some? && ScriptParser.ExtractCoordinates(test.value).Success?
        && PathVisualizer.Deviations(ScriptParser.ExtractCoordinates(master.value).value,
                                     ScriptParser.ExtractCoordinates(test.value).value).Success?
        && PathsPlottable(ScriptParser.ExtractCoordinates(master.value).value,
                          ScriptParser.ExtractCoordinates(test.value).value)
    ensures DeviationAnalysis(rec, now).Shown? ==>
      var mm := ScriptParser.ExtractCoordinates(rec.masterScript.value).value;
      var tm := ScriptParser.ExtractCoordinates(rec.testScript.value).value;
      forall i | 0 <= i < PathVisualizer.AlignedLength(mm, tm) :: |mm[i]| == 3 && |tm[i]| == 3
  {
  }
}
