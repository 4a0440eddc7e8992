# Robot path QA dashboard: a Dafny model of its core

The dashboard loads a log of robot test runs. Each run has a name, a start date, a status text and two robot scripts, a master and a test. The dashboard classifies the runs, lets the user narrow them down in a sidebar, and for the selected run compares the two scripts' motion paths. This project models the decision and numeric logic behind that, as pure Dafny functions, and proves what they promise.

- **Waypoint extraction** (`RobotScriptParser.extract_coordinates`, module `ScriptParser`).
  - The regular expression `CalcRobT\(\[\[(.*?)\]` is replaced by a scanner written for that one pattern.
  - The scanner's contract states that it finds what `re.finditer` finds. Every reported span is a match. The spans are in text order and do not overlap. No match is missed. `ScanUnique` proves these three properties determine the scan completely.
  - Each capture is split on `,`. The first three tokens go through a model of `float()` (module `Decimal`: ASCII whitespace, an optional sign, digits with an optional point, exact `real` values). The first token that does not parse, in the first capture that has one, fails the whole extraction with its own error.
- **Deviation analysis** (`RobotPathVisualizer`, module `PathVisualizer`).
  - Both waypoint lists are truncated to the shorter length.
  - `master - test` follows numpy's behaviour. The truncated lists must be rectangular. A width-1 row broadcasts against a width-3 row. Columns 0, 1 and 2 are read afterwards.
  - From the deviations the module computes the per-axis maximum and mean absolute deviation of the insights report. It also computes the data behind the deviation chart: three absolute-deviation lines, the heatmap, and the colour ticks `-M, 0, M`.
  - numpy raises in two places. An empty alignment gives the error `EmptyAlignment`. A shape that does not broadcast to three columns gives `ShapeMismatch`. Both are modelled as values of a `Result` type, not as preconditions.
- **Dashboard logic** (`app.py`, module `Dashboard`).
  - Status: `Failed` exactly when the status text contains `FAIL`.
  - Category: the first word of the test name, or `Unknown` for an empty name.
  - Failure type: `get_failure_type`.
  - Sidebar filter chain: day, then status, then failure type.
  - Analysis guard: an exact-equality test decides whether the details page runs the deviation analysis. It is followed by the visualizer, the report, the 3D plot and the chart. Any exception turns into an error banner.
- **Worked scenarios** (module `Scenarios`). Integer-coordinate scripts, with the coordinates as parameters, go end to end through extraction, alignment and the report.

Support modules:
- `Wrappers`: `Option`, `Result` and the error kinds.
- `Text`: `str.split`, the `in` test and whitespace stripping.
- `Sequences` (module `Seqs`): boolean-mask filtering, subsequences, max, sum and mean.

A capture with fewer than three tokens is not an error. The code at `essentials.py:16` parses whatever tokens `split(',')[:3]` yields, so a capture `a,b` gives a two-entry waypoint (`Scenarios.TwoTokenCapture`). numpy rejects it later. When the widths do not broadcast, the subtraction at `essentials.py:155` raises (`Scenarios.TwoTokenWaypointMismatch`). When both sides are two wide, the subtraction succeeds and the read of column 2 at `essentials.py:164` raises. The model reports both cases as `ShapeMismatch`. `plot_3d_paths` reads column 2 as well (`essentials.py:39`), so `Dashboard.PathsPlottable` demands at least three columns.

An empty alignment is not a precondition of the report. The code reaches `deviations[:, 0]` on an empty 1-D array, and numpy raises there. The model keeps the report total and returns `Failure(EmptyAlignment)`. `Deviations` states that this happens exactly when the aligned length is 0.

## Model

| member | source | states |
|---|---|---|
| ScriptParser.CloseFrom | essentials.py:11 | the lazy group `(.*?)\]` closes at the first `]` after the opener with no newline before it; when there is no such `]`, every `]` is preceded by a newline |
| ScriptParser.Scan | essentials.py:11-14 | every span reported is a match of the pattern, the spans are in text order and do not overlap, and every index where the pattern matches lies inside a reported span (nothing is missed) |
| ScriptParser.ScanUnique | essentials.py:13-14 | any list of spans with those three properties equals the scan, so they characterise `finditer` completely |
| ScriptParser.Tokens | essentials.py:16 | the tokens are the first `min(3, pieces)` pieces of `split(',')`, so one to three of them |
| ScriptParser.ParseTokens | essentials.py:16 | the list comprehension succeeds exactly when every token parses, then holds each token's value in order; on failure the error names the first token that does not parse, every earlier token having parsed |
| ScriptParser.ParseCoords | essentials.py:15-16 | a capture becomes a waypoint of its tokens' values in order, with at most three entries, or fails exactly when one of its first three tokens does not parse, with the error of the first such token |
| ScriptParser.Collect | essentials.py:14-17 | the loop succeeds exactly when every match succeeds, and then keeps one value per match in order; a failure is the failure of the first match that fails, every earlier match having succeeded |
| ScriptParser.Captures | essentials.py:13-15 | one capture per match of the scan, in text order, each being the text between the opener and the closing `]` |
| ScriptParser.ExtractCoordinates | essentials.py:10-18 | extraction succeeds exactly when every capture parses; then waypoint `i` is the parse of capture `i`; otherwise the error is that of the first capture, in text order, that does not parse |
| ScriptParser.ExtractionFailsAtFirstBadCapture | essentials.py:14-17 | a failed extraction carries the error of the first capture, in text order, that does not parse, and every capture before it parsed |
| ScriptParser.EmptyExactlyWithoutMatches | essentials.py:11-18 | the result is the empty list, not an error, exactly when the pattern matches nowhere in the script |
| ScriptParser.WaypointsHaveAtMostThreeCoordinates | essentials.py:16 | every extracted waypoint has between one and three coordinates: tokens after the third are never read |
| ScriptParser.FailureIsParseError | essentials.py:16 | a failed extraction fails with a ParseError, and some capture of the script does not parse |
| ScriptParser.CallMatchesAt | essentials.py:11 | a call `CalcRobT([[coords]` written anywhere in a script, with no `]` or newline in `coords`, is a match closing at its own `]` |
| ScriptParser.OneCallCaptures | essentials.py:11-15 | a script that is one such call captures exactly its coordinate text |
| ScriptParser.TwoCallsCapture | essentials.py:13-15 | two calls back to back capture their two coordinate texts, in text order |
| ScriptParser.IntTripleTokens | essentials.py:16 | the text `x,y,z` of three integers splits into the three integers' texts and contains no `]` or newline |
| ScriptParser.IntTripleParses | essentials.py:16 | the capture `x,y,z` of three integers parses to exactly `[x, y, z]` |
| Decimal.ParseNumber | essentials.py:16 | `float(t)` returns a value exactly when `t`, stripped of the ASCII whitespace `float()` skips (space, tab, line feed, vertical tab, form feed, carriage return), is the text of a well-formed decimal literal, and the value is the number that literal denotes |
| Decimal.Parse | essentials.py:16 | a successful `float()` reads a well-formed literal that renders back to the input stripped of that ASCII whitespace (space, tab, line feed, vertical tab, form feed, carriage return) |
| Decimal.ParseRender | essentials.py:16 | conversely, every well-formed literal padded on either side with any run of space, tab, line feed, vertical tab, form feed or carriage return is read back as itself |
| Decimal.IntegerRoundTrip | essentials.py:16 | `float(str(n))` is exactly `n` for every integer `n` |
| Text.Split | essentials.py:16 | `split(sep)` gives at least one piece, no piece contains the separator, and joining the pieces with the separator gives back the input |
| Text.SplitJoin | essentials.py:16 | splitting a join of separator-free pieces gives back the pieces |
| Text.SplitHead | app.py:27 | the first piece of a split is the text before the first separator, and there is more than one piece exactly when the separator occurs |
| Text.Contains | app.py:26 | `sub in s` holds exactly when `sub` occurs in `s` at some index |
| Text.TrimPadded | essentials.py:16 | stripping the ASCII whitespace `float()` skips (space, tab, line feed, vertical tab, form feed, carriage return) from around a text that neither starts nor ends with one of them gives back that text |
| Seqs.Filter | app.py:59-64 | a boolean-mask filter keeps exactly the elements that satisfy the mask, each as many times as it occurs in the input, as an order-preserving subsequence |
| Seqs.FilterFilter | app.py:61-64 | two filters in a row equal one filter by the conjunction of their masks |
| Seqs.MeanBetweenZeroAndMax | essentials.py:161-170 | the mean of non-negative data lies between 0 and the maximum |
| PathVisualizer.AlignedLength | essentials.py:152 | the aligned length is at most both list lengths and equals one of them |
| PathVisualizer.Deviations | essentials.py:152-155 | on success there is one row per aligned move, and row `i` on axis `a` is master minus test after broadcasting; the error is EmptyAlignment exactly when the aligned length is 0, and otherwise ShapeMismatch |
| PathVisualizer.DeviationsSucceed | essentials.py:152-155 | the subtraction succeeds exactly when the alignment is non-empty and the shapes are rectangular and broadcast to three columns |
| PathVisualizer.DeviationOfFullWaypoints | essentials.py:155 | for three-wide rows, deviation `i` on axis `a` is `master[i][a] - test[i][a]` |
| PathVisualizer.DeviationsIgnoreUnaligned | essentials.py:152-154 | waypoints past the aligned length never change the deviations |
| PathVisualizer.DeviationsAntisymmetric | essentials.py:155 | swapping master and test fails alike and otherwise negates every deviation |
| PathVisualizer.SelfDeviationIsZero | essentials.py:155 | a path compared with itself deviates by 0 everywhere |
| PathVisualizer.AbsSeries | essentials.py:93 | entry `i` of an axis's absolute series is the absolute value of deviation `i` on that axis, and none is negative |
| PathVisualizer.MaxAtLeastMean | essentials.py:161-170 | on every axis the maximum absolute deviation is at least the mean, which is at least 0 |
| PathVisualizer.MaxDeviation | essentials.py:161-165 | the per-axis maximum bounds every absolute deviation on that axis and is attained by one move |
| PathVisualizer.MeanDeviation | essentials.py:166-170 | the per-axis mean is the sum of the absolute deviations on that axis divided by the number of moves |
| PathVisualizer.NewVisualizer | essentials.py:21-27 | the constructor fails with `MissingKey("master_script")` when the master is missing, with the master's extraction error when it does not parse, and only then with `MissingKey("test_script")` for a missing test script or with the test script's extraction error; on success the moves are the two extractions, the name defaults to `Unknown Test`, the date to the current time and the status to the empty text |
| PathVisualizer.InsightsReport | essentials.py:151-171 | the report succeeds exactly when the deviations do, failing with their error; it copies name, date and status unchanged; its maximum and mean are the per-axis maximum and mean of the deviations, and on every axis the maximum is at least the mean, which is at least 0 |
| PathVisualizer.ReportMaxIsLargestDifference | essentials.py:152-165 | the report's maximum on an axis is the largest absolute master-minus-test difference over the aligned moves, and is attained (`IsLargestDifference`) |
| PathVisualizer.ReportMeanIsAverage | essentials.py:152-170 | the report's mean on an axis is the sum of the absolute master-minus-test differences over the aligned moves, divided by their number |
| PathVisualizer.ReportIgnoresUnaligned | essentials.py:152-154 | truncating both move lists to the aligned length does not change the report |
| PathVisualizer.AbsEntries | essentials.py:110 | `np.abs(deviations)` flattened row by row has entry `3i + c` equal to the absolute deviation of row `i` on column `c` |
| PathVisualizer.HeatmapPeak | essentials.py:110 | the heatmap peak `M` bounds every absolute deviation, is attained, and is not negative |
| PathVisualizer.PeakIsLargestAxisMax | essentials.py:110 | the heatmap peak equals the largest of the three per-axis maxima of the report |
| PathVisualizer.DeviationChart | essentials.py:75-119 | the chart succeeds exactly when the deviations do; it has three axis lines and three ticks, its heatmap is the deviation array, and the lines and ticks are those drawn from that heatmap |
| PathVisualizer.ChartFor | essentials.py:89-113 | the chart drawn from a non-empty deviation array has three lines, three ticks and that array as its heatmap; line `a` has one point per move, and point `i` is the absolute deviation of move `i` on axis `a` |
| PathVisualizer.ChartTicksSymmetric | essentials.py:101-113 | the colour ticks of a chart are `-M, 0, M` with `M >= 0`, and `M` bounds every heatmap cell and is reached by one |
| PathVisualizer.ChartLinesMatchReport | essentials.py:90-93 | line `a` of the chart has one point per move, its maximum and mean are the report's statistics for axis `a`, and its maximum is at most the top colour tick |
| Dashboard.StatusOf | app.py:26 | the status is Failed exactly when `FAIL` occurs in the status text |
| Dashboard.CategoryOf | app.py:27 | an empty name has category `Unknown`; otherwise the category is a space-free prefix of the name ending at a space or at the end of the name |
| Dashboard.CategoryIsFirstWord | app.py:27 | a space-free word is its own category, and stays the category whatever follows it after a space |
| Dashboard.FailureTypeOf | app.py:30-36 | there is no failure type exactly when `FAIL` is absent; the type is unequal lengths exactly when both `FAIL` and the unequal-lengths phrase occur; otherwise it is the threshold failure |
| Dashboard.FailureTypeExactlyWhenFailed | app.py:26-36 | a record has a failure type exactly when its status is Failed |
| Dashboard.OnDay | app.py:59 | the day filter keeps, in order, every row of the selected day as often as it occurs, and no other row |
| Dashboard.WithStatus | app.py:62 | the status filter keeps, in order, every row with the selected status as often as it occurs, and no other row |
| Dashboard.OfFailureType | app.py:64 | the failure-type filter keeps, in order, every row whose failure type is in the list as often as it occurs; a row without a failure type is dropped |
| Dashboard.FilterRows | app.py:59-64 | the kept rows are an order-preserving subsequence of the input, all on the selected day and, unless Home is chosen, all with the selected status; a row is kept exactly when it satisfies the selection, with the failure-type condition applied only to Failed with a non-empty list |
| Dashboard.FilterRowsIsOneFilter | app.py:59-64 | the chain of filters equals a single filter by the selection predicate |
| Dashboard.BothFailureTypesKeepAllFailed | app.py:51-64 | selecting both failure types, the default, keeps the same rows as selecting none |
| Dashboard.SkipsDeviationAnalysis | app.py:88 | the guard holds only for a status classified as Failed with the unequal-lengths failure type |
| Dashboard.GuardStricterThanClassification | app.py:88 | some status is classified as an unequal-lengths failure but does not trigger the guard, because the guard tests whole-text equality |
| Dashboard.PathsPlottable | essentials.py:29-39 | when the 3D plot can be drawn, both move lists are non-empty and every move has the three columns it reads |
| Dashboard.DeviationAnalysis | app.py:88-146 | the analysis is skipped exactly when the guard holds; it is shown exactly when the guard lets the record through, the visualizer is built, the report succeeds and the paths can be plotted; a shown analysis holds the report and the chart computed for the record, with the record's name, date and status; a broken one carries the error of the first step that failed (the visualizer, the report, then the 3D plot as ShapeMismatch), with the report table only when the report was computed |
| Dashboard.ShownExactlyWhenScriptsCompare | app.py:88-146 | the analysis is shown exactly when the guard lets the record through, both scripts are present and extract, the aligned moves subtract, and both paths can be plotted; every aligned move of a shown analysis is then three wide |
| Scenarios.SingleIntegerCall | essentials.py:10-18 | the script `CalcRobT([[x,y,z]` yields the single waypoint `[x, y, z]` |
| Scenarios.TwoIntegerCalls | essentials.py:13-17 | two such calls yield their two waypoints in text order |
| Scenarios.OneMoveReport | essentials.py:151-171 | one call against one call: the maximum and the mean on each axis are both the absolute difference of the two calls' coordinates |
| Scenarios.LongerMasterReport | essentials.py:152-155 | a master with an extra trailing call against a test with the first call only: two and one waypoints, and zero maximum and mean deviation |
| Scenarios.NoMasterWaypoints | essentials.py:152-162 | a master script without any call yields no waypoints, and the report fails with EmptyAlignment |
| Scenarios.TwoTokenCapture | essentials.py:16 | a capture of two parsable tokens yields a two-entry waypoint, not a parse error |
| Scenarios.TwoTokenWaypointMismatch | essentials.py:155 | a two-entry waypoint against a three-entry one fails the subtraction with ShapeMismatch |

## Left out

- The Streamlit page is not modelled. This covers sidebar widgets, columns, headers, the HTML table and its CSS, the green "No error with" message, the category and test select boxes, and the script display. It is presentation only. The record reaching `DeviationAnalysis` is taken as given.
- JSON upload and decoding are not modelled. Neither is pandas date coercion (`to_datetime`, `.dt.date`). A record's day is an abstract `Day` (an integer), and the start date is kept as text.
- Plotly figure construction is not modelled: traces, layout, colours, the `Move i` labels, hover templates, the camera, and the 3D figure of `plot_3d_paths`. The pie, bar and trend charts are left out too. Only the data the deviation chart is drawn from is modelled, plus the condition under which `plot_3d_paths` raises (`Dashboard.PathsPlottable`).
- IEEE-754 floating point is not modelled. Coordinates and statistics are exact `real`s, so rounding in `float()`, in subtraction and in the mean is absent.
- Decimal.Parse: covers only optional ASCII whitespace, an optional sign, and digits with an optional decimal point. Exponents, `inf`, `nan`, digit-group underscores, non-ASCII whitespace (such as U+00A0 or U+2003) and non-ASCII decimal digits (such as the Arabic-Indic `١٢`, read as 12), all of which Python's `float()` accepts, are treated as parse failures.
- The clock is not modelled. `datetime.now()`, the default date at essentials.py:26, becomes the parameter `now` of `PathVisualizer.NewVisualizer`, already formatted.
- The commented-out cumulative-length and histogram code at essentials.py:121-140 is not modelled. It does not run.
- PathVisualizer.Deviations: follows current numpy, which refuses ragged nested lists. It does not model the object arrays older numpy versions built from them. The parser yields rows one to three wide, and for those the model follows numpy exactly. A difference narrower than three has no column 2 and fails with ShapeMismatch, as numpy raises there. A difference wider than 3 is also given ShapeMismatch, although numpy would read its columns 0 to 2 and go on. That is a choice of the model for rows the parser cannot produce.
- PathVisualizer.NewVisualizer: a script whose log entry is missing or `NaN` is folded into `MissingKey`. A non-string script value is not represented.
- The general regular-expression engine is not modelled. Only the one fixed pattern is, through its own scanner.
