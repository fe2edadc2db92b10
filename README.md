# floracad curve geometry in Dafny

A Dafny model of the computational core of floracad: the highway curve
solver behind its curve-design tool. It covers the following.

- **Parsers.** Text becomes values:
  - stations written `12+34`;
  - grades with an optional `%`;
  - elevations, lengths and design speeds;
  - DMS angle strings.
- **Design tables and the checks built on them.** The AASHTO Green Book Table 3-35 and the Caltrans Highway Design Manual Tables 201.1 and 201.7 (7th edition, 2020) give minimum sight distances. Built on them are:
  - the horizontal-curve compliance check;
  - the older revision's table-file parser and minimum sight distance.
- **The vertical (parabolic) curve.** This covers:
  - the six PVC/PVI/PVT station conversions;
  - the high or low point;
  - the capped generator of stations at an interval.
- **The horizontal (circular) curve.** This covers:
  - the reference-point dispatch;
  - the capped generator of stations, with their deflection angles and chords, which always ends with the PT.
- **The older revision's builders** (`vertical_create`, `horizontal_create`). Each completes its `key=value` input map in place (`nudge_create`), then computes the curve and its sight distance.
- **Smaller pieces:**
  - the enum cycles;
  - the `key=value` line reader;
  - the four state changes of the front end that the model keeps: switching the page, adding an obstacle, removing an obstacle, and converting between vertical and horizontal station definitions.

The model follows the source file by file; one Dafny module per source file:

| module | source |
|---|---|
| `DataTypes` | `src/datatypes.rs` |
| `Tables` | `src/tables.rs` |
| `Vertical` | `src/vertical/mod.rs` |
| `VerticalCalculate` | `src/vertical/calculate.rs` |
| `VerticalInterval` | `src/vertical/interval.rs` |
| `Horizontal` | `src/horizontal/mod.rs` |
| `HorizontalCalculate` | `src/horizontal/calculate.rs` |
| `HorizontalInterval` | `src/horizontal/interval.rs` |
| `Intervals` | what the two interval files share |
| `AngleSystem` | `src/angle_system.rs` |
| `SightDistance` | `src/sight_distance.rs` |
| `VerticalCalculation` | `src/vertical_calculation.rs` |
| `VerticalCreate` | `src/vertical_create.rs` |
| `HorizontalCreate` | `src/horizontal_create.rs` |
| `Lib` | `src/lib.rs` |
| `Frontend` | `src/frontend/mod.rs` |

Three modules support the rest:

- `Results` holds the `Option` and `Result` types.
- `RealMath` holds π, `abs`, `ceil` and division.
- `Text` models the Rust standard library string operations the parsers use:
  - `split`, `split_terminator`, `split_once` and `split_whitespace`;
  - `trim` and `trim_end_matches`;
  - `str::parse` for `i32` and `f64`.

The repository holds several inconsistent revisions, and each module uses the types of its own file. For example:

- `Station.elevation` is a plain number in `src/datatypes.rs` and in `src/vertical_create.rs`;
- it is optional in the interval files.

The source's behaviour takes these forms in the model:

- **Failures.** A `panic!`, `unwrap`, `expect` or `?` becomes a `None` or an `Err`.
- **State.** State that the source changes in place is kept as state and is proved against a specification function:
  - the station builder loop;
  - `coerce_grade`;
  - the two interval generators;
  - `parse_table` and `parse_input`;
  - the two `nudge_create`s;
  - the front end's `CurveSolver`.

## Model

| member | source | states |
|---|---|---|
| DataTypes.CoerceStationValue | src/datatypes.rs:26-36 | the loop over the `+`-separated parts, each trimmed and parsed, returns exactly `StationValue`: the first part times 100 plus the second, or the station error |
| DataTypes.CombineFirstTwo | src/datatypes.rs:31-32 | with at least two parsed parts, the station is first·100 + second and further parts do not matter |
| DataTypes.StationOfVector | src/datatypes.rs:28-35 | once every part has parsed, the station depends only on the parsed vector |
| DataTypes.PiecesPrefixFails | src/datatypes.rs:29 | the `?` in the loop: a part that fails to parse fails the whole station, whatever follows |
| DataTypes.PiecesAll | src/datatypes.rs:28-30 | the vector exists exactly when every part parses, and then holds each part's value in order |
| DataTypes.CoerceGrade | src/datatypes.rs:50-58 | the in-place division by 100 after a trailing `%` gives exactly `Grade` |
| DataTypes.SightTypeCycle | src/datatypes.rs:16-24 | `next` has no fixed point and three steps return to the start |
| DataTypes.StationValueOk | src/datatypes.rs:28-32 | a parsed station has at least two parts, all of which parse, and equals first·100 + second |
| DataTypes.StationValueOfPieces | src/datatypes.rs:28-32 | conversely, two or more parts that all parse give first·100 + second |
| DataTypes.StationNeedsTwoParts | src/datatypes.rs:31-35 | fewer than two parts is the station error |
| DataTypes.StationEveryPartParses | src/datatypes.rs:29 | any part that does not parse, a third or later one included, is the station error |
| DataTypes.SplitAppendLast | src/datatypes.rs:28 | splitting `s+t` on `+` is splitting `s` and appending `t` |
| DataTypes.StationExtraPartIgnored | src/datatypes.rs:31-32 | a third part that parses does not change the station |
| DataTypes.CoercePadded | src/datatypes.rs:38-48 | `coerce_elevation` and `coerce_speed` trim: surrounding whitespace changes neither the elevation nor the speed |
| DataTypes.CoerceBlank | src/datatypes.rs:38-48 | `coerce_elevation` and `coerce_speed` reject empty or blank text with their own errors |
| DataTypes.GradePlain | src/datatypes.rs:51-57 | without a trailing `%` the grade is the plain parsed number |
| DataTypes.GradePercent | src/datatypes.rs:51-55 | with a trailing `%` the grade is the parsed number divided by 100 |
| DataTypes.SplitOfTrailing | src/datatypes.rs:28 | `split_terminator` drops the trailing empty part of `12+` |
| DataTypes.StationOfTwo | src/datatypes.rs:28-32 | `a+b` with both parts parsing gives a·100 + b |
| DataTypes.Station1234 | src/datatypes.rs:26-36 | `12+34` gives 1234 |
| DataTypes.StationNegative | src/datatypes.rs:32 | `-10284+50` gives -1028350: the sign is not carried to the second part |
| DataTypes.StationOnePiece | src/datatypes.rs:31-35 | `12` and `12+` both fail |
| DataTypes.GradeTwoPercent | src/datatypes.rs:50-57 | `2%` gives 0.02 |
| DataTypes.GradeRatio | src/datatypes.rs:50-57 | ` 0.02 ` gives 0.02, the same as `2%` |
| DataTypes.GradeSmallPercent | src/datatypes.rs:50-57 | `0.44%` and `-0.57%` give 0.0044 and -0.0057 |
| DataTypes.GradeOnlyPercent | src/datatypes.rs:51 | `%` alone is the grade error |
| DataTypes.ElevationPadded | src/datatypes.rs:38-42 | `coerce_elevation` reads ` 1001.38 ` as 1001.38 |
| DataTypes.ElevationInnerSpace | src/datatypes.rs:39 | inner whitespace is not trimmed: `12 34` is an error |
| DataTypes.SpeedExamples | src/datatypes.rs:44-48 | `coerce_speed` reads `45` as 45 and rejects `45.5` with the speed error |
| Tables.AashtoKeys | src/tables.rs:11-24 | the AASHTO table lists exactly the multiples of 5 from 15 to 80 |
| Tables.HdmKeys | src/tables.rs:34-48 | the Caltrans table lists exactly the multiples of 5 from 10 to 80 |
| Tables.MinSightDefined | src/tables.rs:54-77 | a lookup succeeds exactly at a listed speed, except AASHTO decision sight distance, which never exists |
| Tables.MinSightPositive | src/tables.rs:54-77 | every distance returned is positive |
| Tables.StoppingIncreases | src/tables.rs:11-48 | the stopping distance strictly increases with the design speed in both tables |
| Tables.StoppingStep | src/tables.rs:11-48 | one 5 mph step raises the stopping distance |
| Tables.PassingStep | src/tables.rs:11-48 | one 5 mph step never lowers the passing distance |
| Tables.DecisionStep | src/tables.rs:34-48 | one 5 mph step never lowers the Caltrans decision distance |
| Tables.PassingExceedsStopping | src/tables.rs:11-48 | at every listed speed the passing distance exceeds the stopping one |
| Tables.HdmExamples | src/tables.rs:45 | 65 mph stopping is 660, 30 mph passing 1100 and 80 mph decision 1260 |
| Vertical.NextOrder | src/vertical/mod.rs:25-27 | PVC steps to PVI, PVI to PVT, PVT to PVC |
| Vertical.NextCycle | src/vertical/mod.rs:22-29 | no fixed point, and three steps return to the start |
| Vertical.NextInjective | src/vertical/mod.rs:22-29 | distinct points step to distinct points, so `next` permutes them |
| VerticalCalculate.ToDimensionsParses | src/vertical/calculate.rs:30-39 | Ok exactly when both grades and the length parse, holding those values and no sight distance; the first failing field's error otherwise |
| VerticalCalculate.GradeErrors | src/datatypes.rs:51 | every grade failure is the grade error |
| VerticalCalculate.ExternalClosedForm | src/vertical/calculate.rs:34-35 | a·(L/2)² with a = (g2 − g1)/(2L) is (g2 − g1)·L/8 |
| VerticalCalculate.ToDimensionsExternal | src/vertical/calculate.rs:34-35 | the external of parsed dimensions is (g2 − g1)·L/8 |
| VerticalCalculate.PvcPviInverse | src/vertical/calculate.rs:69-79 | `pvi_to_pvc` and `pvc_to_pvi` undo each other |
| VerticalCalculate.PviPvtInverse | src/vertical/calculate.rs:81-91 | `pvt_to_pvi` and `pvi_to_pvt` undo each other |
| VerticalCalculate.PvcPvtInverse | src/vertical/calculate.rs:73-87 | `pvt_to_pvc` and `pvc_to_pvt` undo each other |
| VerticalCalculate.ConversionsCompose | src/vertical/calculate.rs:69-91 | PVC to PVT is PVC to PVI then PVI to PVT, in value and elevation, and the same backwards |
| VerticalCalculate.StationOffsets | src/vertical/calculate.rs:44-91 | whatever point is given, pvt − pvc = L, pvi − pvc = pvt − pvi = L/2, and the elevations rise by g1·L/2 and then g2·L/2 |
| VerticalCalculate.StartInItsSlot | src/vertical/calculate.rs:44-66 | the given station sits unchanged in the slot of the input method |
| VerticalCalculate.Rebuild | src/vertical/calculate.rs:44-91 | rebuilding from any derived station with the same dimensions reproduces all three |
| VerticalCalculate.ToStationsSlot | src/vertical/calculate.rs:41-67 | Ok exactly when the station and the elevation parse, the parsed station in its slot; a failing station gives the station error, and a parsed station with a failing elevation the elevation error |
| VerticalCalculate.StationErrors | src/datatypes.rs:29-34 | every station failure is the station error |
| VerticalCalculate.ToVerticalCurveParts | src/vertical/calculate.rs:93-98 | Ok exactly when the dimensions and then the stations are Ok, holding both |
| VerticalCalculate.ToDimensionsOf | src/vertical/calculate.rs:30-39 | parsed grades and a non-zero length give the record with external (g2 − g1)·L/8 |
| VerticalCalculate.ToStationsOf | src/vertical/calculate.rs:41-67 | a parsed station and elevation give the stations laid out from that point |
| VerticalCalculate.ExampleFields | src/datatypes.rs:50-57 | the example's grades `0.44%` and `-0.57%` parse to 0.0044 and -0.0057 |
| VerticalCalculate.ExampleLength | src/datatypes.rs:38-42 | the example's length `500` parses to 500 |
| VerticalCalculate.ExampleElevation | src/datatypes.rs:38-42 | the example's elevation `1001.38` parses to 1001.38 |
| VerticalCalculate.ExampleDimensions | src/vertical/calculate.rs:30-39 | the example's dimensions, with external -0.63125 |
| VerticalCalculate.ExampleStations | src/vertical/calculate.rs:52-57 | a PVI of `10284+50` at 1001.38 gives PVC (1028200, 1000.28) and PVT (1028700, 999.955) |
| VerticalCalculate.Station10284 | src/datatypes.rs:26-36 | `10284+50` gives 1028450 |
| Horizontal.NextCycle | src/horizontal/mod.rs:21-27 | PC steps to PI, PI to PT, PT to PC; no fixed point, and three steps return to the start |
| Horizontal.ToDimensionsParses | src/horizontal/mod.rs:45-47 | Ok exactly when the length parses; the length error otherwise; a design speed that does not parse silently becomes 0 |
| Horizontal.ToStationsSlot | src/horizontal/mod.rs:63-89 | Ok exactly when the station and the elevation parse, the parsed station in the slot of the input method |
| Horizontal.ToStationsErrorFirst | src/horizontal/mod.rs:64 | a parse failure is an error whatever the conversions are, so none of them runs |
| Horizontal.ToHorizontalCurveParts | src/horizontal/mod.rs:121-126 | Ok exactly when the dimensions and then the stations are Ok, holding both |
| HorizontalCalculate.IsCompliantResult | src/horizontal/calculate.rs:34-48 | the lookup error exactly at an unlisted speed or AASHTO decision sight distance; otherwise the requirement is table value × adjustment and the flag holds exactly when the sight distance reaches it |
| HorizontalCalculate.RequiredPositive | src/horizontal/calculate.rs:43-46 | with a positive adjustment the requirement is positive |
| HorizontalCalculate.IsCompliantDependsOn | src/horizontal/calculate.rs:34-48 | the result depends only on the design speed and the sight distance, not on the stations or the other dimensions |
| HorizontalCalculate.CompliantMonotone | src/horizontal/calculate.rs:44 | a compliant curve stays compliant with a longer sight distance |
| HorizontalCalculate.CompliantAtRequirement | src/horizontal/calculate.rs:44 | the comparison is not strict: exactly the requirement complies |
| Intervals.StepCount | src/vertical/interval.rs:39-50 | the number of pushes lies between its start and the cap of 100 |
| Intervals.FirstStationMultiple | src/vertical/interval.rs:26-28 | for a positive interval the first station is the least multiple of the interval not below the start |
| Intervals.PerHundred | src/vertical/interval.rs:26 | scaling by 100/i and dividing by 100 is dividing by i |
| Intervals.PerHundredBack | src/vertical/interval.rs:27-28 | dividing by 100/i and multiplying by 100 is multiplying by i |
| Intervals.Scaled | src/vertical/interval.rs:26-28 | a ceiling's bounds survive scaling by a positive interval |
| Intervals.StepCountStops | src/vertical/interval.rs:47-49 | the loop stops at the cap or at the first step reaching the end, and every step before it falls short |
| Intervals.StepNext | src/vertical/interval.rs:42 | each step adds the interval |
| Intervals.StepZero | src/vertical/interval.rs:32 | step 0 is the first station |
| Intervals.StepValueClosed | src/vertical/interval.rs:42 | step k is first + k·interval |
| VerticalInterval.VerticalEntries | src/vertical/interval.rs:39-50 | the list of the first n entries has n entries |
| VerticalInterval.IntervalStations | src/vertical/interval.rs:21-53 | the loop returns exactly the entries its specification lists, as many as the stop rule allows; no PVC elevation is the `unwrap` panic |
| VerticalInterval.VerticalEntryStep | src/vertical/interval.rs:42-45 | each entry is the previous value plus the interval, its elevation taken at x = value − first station |
| VerticalInterval.VerticalEntriesIndex | src/vertical/interval.rs:40 | entry k of the list is the k-th entry pushed |
| VerticalInterval.ExtremeIsStationary | src/vertical/interval.rs:5-19 | for distinct grades and a non-zero length the extreme exists and the slope g1 + 2a·x is zero there |
| VerticalInterval.CoefficientNonZero | src/vertical/interval.rs:6-7 | distinct grades and a non-zero length give a non-zero coefficient |
| VerticalInterval.ExtremeIsVertex | src/vertical/interval.rs:8-12 | the curve's elevation anywhere is the extreme's elevation plus a·(t − x)², so it is the high or low point |
| VerticalInterval.Vertex | src/vertical/interval.rs:10-12 | the parabola's vertex form where its slope vanishes |
| VerticalInterval.VerticalEntriesBounded | src/vertical/interval.rs:29-50 | between 1 and 100 entries; every entry after the first lies before the PVT, and the list stops at the first stepped value reaching the PVT unless the cap of 100 comes first |
| VerticalInterval.VerticalEntryValue | src/vertical/interval.rs:26-42 | for a positive interval the first entry is the least multiple not below the PVC, and entry k is first + k·interval |
| VerticalInterval.CurveElevationEnds | src/vertical/calculate.rs:73-75 | the parabola through the PVC meets the PVC's elevation and, L past it, the PVT elevation the station conversions give, with slope g2 there |
| VerticalInterval.LaterEntryOffCurve | src/vertical/interval.rs:43-45 | a PVC at 50 with interval 100: entry 1 at 200 gets elevation 0.5, but the curve there is at 0.375 |
| VerticalInterval.CorrectedVerticalEntry | src/vertical/interval.rs:43-45 | the same station with its elevation taken on the curve, at x = value − PVC |
| VerticalInterval.CorrectedAgrees | src/vertical/interval.rs:30-45 | the corrected entries agree with the source's for the first entry, and for all when the PVC is itself a multiple of the interval |
| HorizontalInterval.SteppedEntries | src/horizontal/interval.rs:26-44 | the list of the first n stepped entries has n entries |
| HorizontalInterval.IntervalStations | src/horizontal/interval.rs:5-59 | the loop and the PT push return exactly the stepped entries, as many as the stop rule allows, followed by the PT entry |
| HorizontalInterval.StepStations | src/horizontal/interval.rs:16-44 | the loop pushes exactly the stepped entries and leaves the running station at the next one, after as many steps as the stop rule allows |
| HorizontalInterval.SteppedPush | src/horizontal/interval.rs:27 | one more push appends the next entry |
| HorizontalInterval.SteppedStep | src/horizontal/interval.rs:29-38 | each step adds Da/2 to the deflection, sets the constant chord and adds the interval |
| HorizontalInterval.PtStep | src/horizontal/interval.rs:47-59 | the PT entry built from the running station after the loop is the specification's PT entry |
| HorizontalInterval.HorizontalEntriesIndex | src/horizontal/interval.rs:27 | entry k of the list is the k-th entry pushed |
| HorizontalInterval.HorizontalEntriesBounded | src/horizontal/interval.rs:16-53 | between 2 and 101 entries; every stepped entry after the first lies before the PT; the last entry's value is exactly the PT |
| HorizontalInterval.FirstEntry | src/horizontal/interval.rs:7-24 | the first entry is the least multiple of the interval not below the PC, its deflection (first − pc)/L·Δ/2 and its chord the first chord |
| HorizontalInterval.NextEntry | src/horizontal/interval.rs:29-38 | each later entry adds the interval and Da/2, with the chord 2R·sin(Da/2) |
| HorizontalInterval.PtAfterLast | src/horizontal/interval.rs:47-57 | the PT deflection is (last pushed deflection + Da/2) + (pt − last pushed value)/L·Δ/2 |
| HorizontalInterval.DeflectionAdds | src/horizontal/interval.rs:11-13 | deflection over a length is additive in the length |
| HorizontalInterval.DeflectionOverHundred | src/horizontal/interval.rs:31 | when Da is the angle of 100 ft of arc, Da/2 is the deflection over 100 ft |
| HorizontalInterval.SteppedDeflectionAtHundred | src/horizontal/interval.rs:29-38 | at a 100 ft interval every stepped entry's deflection is the true deflection over its distance from the PC |
| HorizontalInterval.CorrectedPtEntry | src/horizontal/interval.rs:47-57 | the PT entry with the deflection over its whole distance from the PC |
| HorizontalInterval.CorrectedPtHalfAngle | src/horizontal/interval.rs:47-57 | with pt − pc = L, the corrected PT deflection is Δ/2 |
| HorizontalInterval.PtDeflectionOvershoots | src/horizontal/interval.rs:47-57 | at a 100 ft interval the source's PT deflection exceeds the corrected one by exactly Da/2 |
| HorizontalInterval.ExamplePtDeflection | src/horizontal/interval.rs:47-57 | on the example curve the PT deflection is 0.3 where Δ/2 = 0.2 is due |
| AngleSystem.CreateDms | src/angle_system.rs:13-23 | a parsed angle is a DMS with bearing East and `i32`-range degrees and minutes; anything else is the panic |
| AngleSystem.CreateDmsOfParts | src/angle_system.rs:13-23 | a line cut by any three of `d`, `'` and `"` parses exactly when its three pieces do, to those pieces' values, whatever follows |
| AngleSystem.DmsPieces | src/angle_system.rs:15 | the split's first three pieces are the degree, minute and second texts |
| AngleSystem.CreateDmsNeedsThreePieces | src/angle_system.rs:18-20 | a line with no or one delimiter has too few pieces and gives no angle |
| AngleSystem.CreateDmsExample | src/angle_system.rs:13-23 | `60d13'42"` is 60°13'42" East |
| AngleSystem.Value | src/angle_system.rs:25-31 | the number of a decimal-degree or radian angle; a DMS angle panics |
| AngleSystem.ToDms | src/angle_system.rs:33-39 | always a DMS angle: a DMS angle unchanged, any other the codec's DMS of its measure in decimal degrees |
| AngleSystem.ToDecimalDegrees | src/angle_system.rs:41-47 | always a decimal-degree angle: such an angle unchanged, a DMS angle read by the codec, a radian angle r giving d with d·π = 180·r |
| AngleSystem.ToRadians | src/angle_system.rs:49-55 | always a radian angle: such an angle unchanged, any other r with 180·r = π times its measure in decimal degrees |
| AngleSystem.AngleAnchors | src/angle_system.rs:41-55 | 180° is π radians and back, 90° is π/2 and back, and 0 is 0 |
| AngleSystem.DmsRoundTrip | src/angle_system.rs:33-55 | with a codec that reads back what it writes, degrees to DMS to degrees and radians to DMS to radians are the identity |
| AngleSystem.DegreesRadiansRoundTrip | src/angle_system.rs:41-55 | degrees to radians and back, and radians to degrees and back, are the identity |
| AngleSystem.ConversionsIdempotent | src/angle_system.rs:33-55 | an angle already in the target form is returned unchanged, so each conversion is idempotent |
| AngleSystem.ConversionsCompose | src/angle_system.rs:33-55 | DMS to radians equals DMS to degrees to radians, and radians to DMS equals radians to degrees to DMS |
| VerticalCalculation.GradesArePlain | src/vertical_calculation.rs:4-14 | the grade and length helpers parse the text as it stands: a `%` or whitespace anywhere is the panic |
| VerticalCalculation.GradeAgreesWithCoerceGrade | src/vertical_calculation.rs:4-6 | on text without whitespace or a trailing `%` the older grade helper agrees with the later `coerce_grade` |
| VerticalCalculation.PercentGradeDisagrees | src/vertical_calculation.rs:4-6 | `2%` panics in the older helper where the later one reads 0.02 |
| VerticalCalculation.ExternalClosedForm | src/vertical_calculation.rs:16-22 | for a non-zero length the external is (g2 − g1)·L/8 |
| VerticalCalculation.PvcPviPvt | src/vertical_calculation.rs:28-54 | the three station helpers fail together; on success PVC and PVT are L apart with the PVI halfway, and the elevations change by g1·L/2 and g2·L/2 |
| VerticalCalculation.AgreesWithConversions | src/vertical_calculation.rs:28-54 | the PVC and PVT helpers agree with the later revision's PVI conversions |
| VerticalCalculation.PviOfTwo | src/vertical_calculation.rs:38-44 | the PVI station of `calc_pvi` written `a+b` is a·100 + b, and fails when either part does not parse |
| VerticalCalculation.PviOfOne | src/vertical_calculation.rs:38-44 | a PVI station with no `+` has one piece, so `calc_pvi` indexing the second panics |
| VerticalCalculation.PviValueExample | src/vertical_calculation.rs:39-40 | `10284+50` is 1028450 |
| VerticalCalculation.PviValueFailures | src/vertical_calculation.rs:39-40 | `12+`, `12+ 34` and `12` all panic |
| VerticalCreate.Given.constructor | src/vertical_create.rs:39 | the map holds the given entries |
| VerticalCreate.Given.NudgeCreate | src/vertical_create.rs:73-105 | returns true exactly when the nudge specification succeeds, and the map is then the nudged map |
| VerticalCreate.NudgedSucceeds | src/vertical_create.rs:77-103 | the nudge succeeds exactly when the PVI station and the PVI elevation each have a source with the inputs they need |
| VerticalCreate.NudgedKeepsEntries | src/vertical_create.rs:77-103 | after the nudge both PVI keys are present, every given entry is unchanged and nothing else is added |
| VerticalCreate.NudgedPrefersPvc | src/vertical_create.rs:78-97 | a missing PVI value comes from the PVC when it is given and from the PVT only otherwise |
| VerticalCreate.NudgedIdempotent | src/vertical_create.rs:77-103 | nudging a nudged map changes nothing |
| VerticalCreate.CalcSightDistance | src/vertical_create.rs:108-139 | a found sight distance is non-negative and never equals L; equal grades are the panic |
| VerticalCreate.SightDistanceChoice | src/vertical_create.rs:108-139 | for each kind (crest g1 > g2, sag g1 < g2): that kind's long-sight value when it exceeds L; otherwise its short-sight value when that is below L; otherwise the panic; equal grades are the panic |
| VerticalCreate.CrestSightDistanceSolves | src/vertical_create.rs:112-123 | on a crest curve with L > 0 and exact square roots, a sight distance above L solves L = 2S − 1329/A and one below L solves L = AS²/1329 |
| VerticalCreate.SagSightDistanceSolves | src/vertical_create.rs:124-135 | on a sag curve with L > 0 and exact square roots, a sight distance above L solves L = 2S − (400 + 3.5S)/A when 4A > 7, and one below L solves A·S² = L·(400 − 3.5S) |
| VerticalCreate.CrestLongCase | src/vertical_create.rs:113 | for positive A and L the crest long-sight value, taken absolute, solves L = 2S − 1329/A |
| VerticalCreate.CrestShortCase | src/vertical_create.rs:114 | with exact square roots the crest short-sight value, taken absolute, solves L = AS²/1329 |
| VerticalCreate.SagLongCase | src/vertical_create.rs:125 | for positive L and 4A > 7 the sag long-sight value, taken absolute, solves L = 2S − (400 + 3.5S)/A |
| VerticalCreate.SagShortCase | src/vertical_create.rs:126 | with exact square roots the sag short-sight value as written, taken absolute, solves A·S² = L·(400 − 3.5S) |
| VerticalCreate.CrestLongSolves | src/vertical_create.rs:113 | the crest long-sight value solves L = 2S − 1329/A |
| VerticalCreate.CrestShortSolves | src/vertical_create.rs:114 | with exact square roots the crest short-sight value solves L = AS²/1329 |
| VerticalCreate.SagLongSolves | src/vertical_create.rs:125 | the sag long-sight value solves L = 2S − (400 + 3.5S)/A |
| VerticalCreate.SagShortAsWritten | src/vertical_create.rs:126 | as written the sag short-sight value solves A·S² = L·(400 − 3.5S) |
| VerticalCreate.CorrectedSagShort | src/vertical_create.rs:126 | the sag short-sight formula with the sign before 7√L corrected |
| VerticalCreate.CorrectedSagShortSolves | src/vertical_create.rs:126 | with exact square roots the corrected value solves the design relation A·S² = L·(400 + 3.5S) |
| VerticalCreate.SagAlgebra | src/vertical_create.rs:126 | the algebra behind both signs of the sag short-sight root |
| VerticalCreate.SagExample | src/vertical_create.rs:124-135 | grades −4.5 and 4.5 over 100 ft give 50, which breaks the design relation; the corrected formula gives 800/9, which keeps it |
| VerticalCreate.StationsOf | src/vertical_create.rs:55-59 | stations exist exactly when the PVI and the length parse; the PVI is as given and PVC and PVT lie L apart around it, rising g1·L/2 and g2·L/2 |
| VerticalCreate.StationsOfOffsets | src/vertical_create.rs:55-59 | the station offsets of a computed set of stations |
| VerticalCreate.Create | src/vertical_create.rs:38-71 | the input error is passed on exactly when the input read failed; a curve holds the nudged map's dimensions and stations, with the sight distance computed from its dimensions |
| VerticalCreate.CreateSucceeds | src/vertical_create.rs:38-71 | a curve is created exactly when the nudge succeeds, the grades, length and PVI parse and a sight distance is found |
| VerticalCreate.CreatedGeometry | src/vertical_create.rs:55-62 | a created curve's PVC and PVT are one length apart with the PVI halfway, and its sight distance is the one its own dimensions give |
| VerticalCreate.DimensionsOfParsed | src/vertical_create.rs:44-54 | the dimensions `create` reads exist exactly when both grades and the length are given and parse, hold those numbers, and for a non-zero length have external (g2 − g1)·L/8 |
| SightDistance.TableFor | src/sight_distance.rs:18-22 | the decision sight type reads Table 201.7; stopping and passing both read Table 201.1 |
| SightDistance.RowOf | src/sight_distance.rs:26-30 | a line is skipped exactly when it is empty or its first token is not an `i32`; it is misconfigured exactly when that token is one and a later token is not an `f64`; a row holds that speed and, in order, every later token's value |
| SightDistance.ParseTable | src/sight_distance.rs:25-34 | the loop returns exactly the table its specification describes |
| SightDistance.PrefixFails | src/sight_distance.rs:30 | once a line has panicked, the whole parse has |
| SightDistance.MisconfiguredFails | src/sight_distance.rs:30 | a numbered line with a value that does not parse makes the whole parse fail |
| SightDistance.TableKeys | src/sight_distance.rs:25-33 | a speed is a key exactly when some line's first token parses to it |
| SightDistance.TableHoldsLastRow | src/sight_distance.rs:29 | the value stored for a speed is that of the last line for it |
| SightDistance.TableStep | src/sight_distance.rs:25-33 | a skipped line changes nothing; a row line sets its speed and keeps every other speed |
| SightDistance.Column | src/sight_distance.rs:39-43 | the passing sight type reads column 1; stopping and decision both read column 0 |
| SightDistance.CalcMinSightDistance | src/sight_distance.rs:38-48 | a value exactly when the speed is in the table and its row has the column; that value, times 1.2 on a sustained downgrade |
| SightDistance.CalcVaSightDistance | src/sight_distance.rs:52-72 | a sag gives the placeholder 2 and equal grades the placeholder 1; a crest value never equals L |
| SightDistance.CrestAgrees | src/sight_distance.rs:56-66 | on a crest with a non-negative length and square root the value is the one `VerticalCurve::calc_sight_distance` gives |
| HorizontalCreate.Given.constructor | src/horizontal_create.rs:36 | the map holds the given entries |
| HorizontalCreate.Given.NudgeCreate | src/horizontal_create.rs:72-91 | returns true exactly when the nudge specification succeeds, and the map is then the nudged map |
| HorizontalCreate.NudgedSucceeds | src/horizontal_create.rs:73-88 | the nudge succeeds exactly when Da or R is given and the PI is given or derivable from the PC or PT with I and R |
| HorizontalCreate.NudgedKeepsEntries | src/horizontal_create.rs:73-88 | after the nudge Da and PI are present, every given entry is unchanged and nothing else is added |
| HorizontalCreate.NudgedDerivations | src/horizontal_create.rs:73-88 | a missing Da comes from R; a missing PI from the PC when it is given and from the PT only otherwise |
| HorizontalCreate.NudgedIdempotent | src/horizontal_create.rs:73-88 | nudging a nudged map changes nothing |
| HorizontalCreate.SightDistanceSolves | src/horizontal_create.rs:93-99 | where cos inverts acos, the sight distance satisfies the middle-ordinate relation M = R·(1 − cos(28.65·S/R degrees)) |
| HorizontalCreate.SightDistanceBounds | src/horizontal_create.rs:98 | for a positive radius and acos in [0, π] the sight distance lies between 0 and 180·R/28.65 |
| HorizontalCreate.NoObstruction | src/horizontal_create.rs:98 | a zero middle ordinate gives a zero sight distance |
| HorizontalCreate.Create | src/horizontal_create.rs:35-70 | the input error exactly when the read failed; a curve exactly when the nudge succeeds and I is given; every dimension is the helpers' value for the nudged Da and I (radius, length, tangent, long chord, middle ordinate, external, 100-foot length, angle), the sight distance is computed from its radius and middle ordinate, and the stations are laid out from PI |
| HorizontalCreate.CreateSucceeds | src/horizontal_create.rs:35-70 | a curve is created exactly when Da or R, a PI source and I are given |
| HorizontalCreate.CreatedSightDistance | src/horizontal_create.rs:60-99 | a created curve's sight distance satisfies the middle-ordinate relation for its own radius |
| Lib.ParseInput | src/lib.rs:12-25 | the loop returns exactly the map its specification describes |
| Lib.InputStep | src/lib.rs:18-22 | a line without `=` changes nothing; one with it sets the text before the first `=` to the rest and keeps every other key |
| Lib.InputKeys | src/lib.rs:17-23 | a key is present exactly when some line has it before its first `=` |
| Lib.InputHoldsLastLine | src/lib.rs:21 | the value for a key is that of the last line setting it |
| Lib.KeysHoldNoEquals | src/lib.rs:18 | no key contains `=` |
| Lib.InputOfOne | src/lib.rs:17-23 | one line `key=value` gives the one-entry map |
| Lib.InputUntrimmed | src/lib.rs:21 | `R = 500` gives the key `R ` and the value ` 500`: nothing is trimmed |
| Lib.InputFirstSeparator | src/lib.rs:18-20 | a line is split at its first `=`, and a following line without `=` is skipped |
| Lib.InputSkips | src/lib.rs:20 | appending a line without `=` leaves the map unchanged |
| Frontend.CurveSolver.constructor | src/frontend/mod.rs:75-85 | the solver starts on an empty vertical page |
| Frontend.CurveSolver.NextPage | src/frontend/mod.rs:314-323 | the page becomes the other kind, empty |
| Frontend.CurveSolver.AddToList | src/frontend/mod.rs:325-347 | Ok exactly when the specification's add succeeds, the page then being the added page; an error is the add's first parse error, the page unchanged |
| Frontend.CurveSolver.RemoveObstacle | src/frontend/mod.rs:166-168 | the page becomes the specification's removal |
| Frontend.NextPageTwice | src/frontend/mod.rs:314-323 | the page always changes kind, and two switches give an empty page of the first kind |
| Frontend.AddAppendsObstacle | src/frontend/mod.rs:328-336 | on a vertical page the add succeeds exactly when station and elevation parse; it appends one obstacle with those values and the selected type, and changes nothing else |
| Frontend.AddAppendsPin | src/frontend/mod.rs:337-344 | on a horizontal page the add succeeds exactly when the pin station parses, failing with the station error otherwise; it appends one pin with that value at elevation 0, and changes nothing else |
| Frontend.AddReportsStationFirst | src/frontend/mod.rs:329 | a station that does not parse is the error reported, whatever the elevation |
| Frontend.RemoveUndoesAdd | src/frontend/mod.rs:166-168 | removing after a successful add gives back the page before it |
| Frontend.RemoveDropsLast | src/frontend/mod.rs:166-168 | removal drops the last obstacle and nothing else; on an empty list it changes nothing |
| Frontend.ToHorizontal | src/frontend/mod.rs:350-358 | PVC, PVI and PVT map to PC, PI and PT, in both directions of each |
| Frontend.ToVertical | src/frontend/mod.rs:360-368 | PC, PI and PT map to PVC, PVI and PVT, in both directions of each |
| Frontend.ConversionsRoundTrip | src/frontend/mod.rs:350-368 | the two conversions are inverse to each other |
| Frontend.ConversionFollowsToggle | src/frontend/mod.rs:350-358 | converting the next vertical definition is the next of the converted one |

## Left out

- **Floating point.** `f64` is modelled as `real`:
  - rounding is not modelled;
  - neither are infinities and NaN, which arise from a zero interval, a zero length or equal grades;
  - a division by zero is 0 (`RealMath.Div`), where the source produces an infinity or a NaN and carries on.
- **`sin`, `acos` and `sqrt`** are function parameters.
  - The interval generator takes its sines as values.
  - Lemmas that need them state what they rely on as preconditions, for example an exact square root or `cos` inverting `acos`.
- VerticalCreate.CrestShortSolves: holds only where the given `sqrt` is exact at the points used, which IEEE `sqrt` is not in general.
- VerticalCreate.SagShortAsWritten: holds only where the given `sqrt` is exact at the points used, which IEEE `sqrt` is not in general.
- VerticalCreate.CorrectedSagShortSolves: holds only where the given `sqrt` is exact at the points used, which IEEE `sqrt` is not in general.
- VerticalCreate.CrestSightDistanceSolves: holds only for a `sqrt` exact on the non-negative reals and a positive length.
- VerticalCreate.CrestShortCase: holds only where `sqrt` is exact on the non-negative reals.
- VerticalCreate.SagSightDistanceSolves: holds only for a `sqrt` exact on the non-negative reals and a positive length. The long-sight relation is stated only for 4A > 7: below that the formula is negative before its `abs`, and the absolute value solves a different relation.
- VerticalCreate.SagShortCase: holds only where `sqrt` is exact on the non-negative reals.
- **`ParseF64`** models Rust's decimal grammar, sign and exponent included. The texts `inf`, `infinity` and `nan` are rejected, where Rust accepts them.
- **The `dms_coordinates` conversions** come in as a `DmsCodec`.
- **The unseen helpers** come in as records of functions:
  - the `horizontal_calculation` helpers, as `HorizontalCreate.HorizontalHelpers`;
  - `calc_station_pvi_from_*` and `calc_elevation_pvi_from_*`, as `VerticalCreate.PviHelpers`;
  - the `todo!` station conversions of `src/horizontal/mod.rs`, as `Horizontal.Conversions`.
- **The station records of `src/horizontal/mod.rs`.** That file builds `HorizontalStations` with fields `pvc`, `pvi` and `pvt`, but the type in `src/horizontal/calculate.rs` has `pc`, `pi` and `pt`. The model uses the latter.
- **`Horizontal.ToDimensions`**: the source parses the length and the design speed and then stops at `todo!()` (src/horizontal/mod.rs:49), so it panics whenever the length parses and never returns `Ok`. The `Ok(complete(...))` of `Horizontal.ToDimensions`, which `Horizontal.ToDimensionsParses` and `Horizontal.ToHorizontalCurve` build on, stands in for that unwritten code: the `Completion` function is a placeholder, not behaviour of the source.
- **The GUI.** The iced views, messages and `Command` plumbing are not modelled, and neither are the fonts and the front end's other files.
  - `Frontend` keeps only the page fields that the four operations read or write.
  - The `Default` values are taken as empty texts, obstacle type 0 and empty lists.
  - `ObstacleType` is an opaque tag.
- **File I/O.**
  - `parse_table` and `parse_input` take the file's lines.
  - Opening the file and its error are not modelled.
  - `TableFor` names the file that `parse_table` would open.
- **Other side effects.** The `println!` reports and the `examine_functional` inspection in both `create`s are not modelled, since they are reporting only.
- VerticalCreate.Given.NudgeCreate: leaves the map unspecified when it fails. The source panics there, so the map is never seen again.
- HorizontalCreate.Given.NudgeCreate: leaves the map unspecified when it fails, for the same reason.
- HorizontalCreate.NudgedSucceeds: the `horizontal_calculation` helpers are taken as total functions, so a failure inside one (a parse panic on text such as `Da=abc`) is not modelled. The "exactly when" condition is relative to that.
- HorizontalCreate.Create: the same; with total helpers a curve is returned wherever the nudge succeeds and `I` is given, even where the source's helpers would panic on the text.
- HorizontalCreate.CreateSucceeds: the same; its success condition holds only because the helpers cannot fail.
- VerticalCreate.NudgedSucceeds: `calc_station_pvi_from_*` and `calc_elevation_pvi_from_*` are taken as total functions, so a failure inside one is not modelled. The "exactly when" condition is relative to that.
- VerticalCreate.CreateSucceeds: the same; the PVI text the helpers produce is then parsed, and that parse failing is modelled, but a panic inside a helper is not.
- **`HorizontalInterval.IntervalStations`.** Its loop is a separate method, `HorizontalInterval.StepStations`, over the scalars it changes.
- **Chords.** The chord values 2R·sin(·) enter the specification functions as values.
- **`calc_long_chord_vertical`** in `src/vertical_calculation.rs` is a stub returning 1.0 that nothing calls, so there is no behaviour to model.
- **Other files.** The export, display, archive, coordinate-system and `calc_dimensions` files are not part of this model: they do I/O, formatting or nothing.
- **The test files** are not part of this model. Where a commented assertion in them fixes a value, an example lemma states it, for example `Tables.HdmExamples`.
- **`SightDistance`** reuses the `SightType` of `DataTypes`, which has the same three variants as the type in `src/sight_distance.rs`.

## Findings

| source | as written | input that shows it | evidently intended | confidence | as-written member | corrected member |
|---|---|---|---|---|---|---|
| src/vertical/interval.rs:43-45 | every entry after the first takes its elevation at x = value − first station | PVC at 50, elevation 0, grades 1% and −1%, L = 200, interval 100: the entry at 200 gets elevation 0.5 where the curve is at 0.375 | x = value − PVC, the distance along the curve, as for the first entry | not executed | VerticalInterval.LaterEntryOffCurve | VerticalInterval.CorrectedVerticalEntry, with VerticalInterval.CorrectedAgrees |
| src/horizontal/interval.rs:47-57 | the PT's deflection adds the stretch after the last listed station to the running deflection, which the loop has already moved on by Da/2 | PC at 0, PT at 200, L = 200, Δ = 0.4 rad, Da = 0.2 rad, 100 ft stations: the PT gets 0.3 rad instead of Δ/2 = 0.2 rad | the deflection over the PC–PT distance, Δ/2 at the end of the arc | not executed | HorizontalInterval.PtDeflectionOvershoots, with HorizontalInterval.ExamplePtDeflection | HorizontalInterval.CorrectedPtEntry, with HorizontalInterval.CorrectedPtHalfAngle |
| src/vertical_create.rs:126 | the sag short-sight formula 1600√L/(√(6400A + 49L) + 7√L) solves A·S² = L·(400 − 3.5S) | grades −4.5 and 4.5 (A = 9) over L = 100 give S = 50, and 9·50² ≠ 100·(400 + 3.5·50) | the root of the design relation A·S² = L·(400 + 3.5S): 1600√L/(√(6400A + 49L) − 7√L), which gives 800/9 | not executed | VerticalCreate.SagShortAsWritten, with VerticalCreate.SagExample | VerticalCreate.CorrectedSagShort, with VerticalCreate.CorrectedSagShortSolves |

The stepped deflections of `interval_stations` in src/horizontal/interval.rs:29-38 grow by Da/2 per entry whatever the station interval is, while the entries are one interval apart. They are therefore the deflection over each entry's distance from the PC only when the interval is 100 ft. `HorizontalInterval.SteppedDeflectionAtHundred` is restricted to that interval because the source is, not because the model is.
