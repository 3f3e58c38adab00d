# Lidar line-fit analysis, modelled in Dafny

This project models the analysis pipeline of `visualization/bokeh_visualization.py`. The pipeline compares two 2-D lidars, an RPLIDAR and a YDLIDAR, mounted in the same room. It has four stages:

1. **Scan conversion** (`bag_scan_to_points`, after the recording is read). It builds the sensor's angle layout, rotates it by the mounting offset, and turns every range reading of every scan into a Cartesian point or an invalid marker.
2. **Per-frame fit** (`fit_line`). Each zone is a list of angle boundary pairs. For each zone, the model selects the points whose bearings fall inside it, drops the invalid ones, and fits a degree-1 line along the zone's declared axis. The frame's scattering is the square root of the mean, over the zones, of each zone's residual divided by its number of points.
3. **Aggregation** (`fit_line_all_data`). Every whole scan of the recording is fitted. The model averages the lines zone by zone and averages the scattering values.
4. **Calibration** (`offset_lidar_reference_measurement`). It takes the distance between two fitted walls at one position and subtracts a reference distance measured by hand. This is done for both lidars.

The numeric routines the script calls are parameters of the model:

- `Trig` holds cosine and sine.
- `Solver` holds numpy's least-squares `polyfit` and the square root.

Exceptions the script would raise become `Err` values of `LidarTypes.Failure`:

- `ZeroRays`: a division by a zero ray count.
- `OddBoundaryList`: a boundary list with an unpaired entry (an IndexError).
- `MissingAxis`: the axis list is shorter than the zone list.
- `UnboundFit`: an axis other than x or y before any fit was made (an UnboundLocalError).
- `EmptyFit`: `polyfit` on no points.
- `NoZones` and `NoFrames`: a mean over nothing.
- `IndexOutOfRange`: a line index that names no line.

Modules, one per file:

- `LidarTypes` (`lidar_types.dfy`): readings, points, lines, fits, axes, the solver and the failures.
- `AngleLayout` (`angle_layout.dfy`): `np.linspace`, `np.rint` (round half to even), `np.roll` and the rotated layout.
- `ScanConversion` (`scan_conversion.dfy`): the reading-to-point rule and the conversion loop (`ScanToPoints`). The loop fills an array with a resetting `indexCounter`.
- `ZoneSelection` (`zone_selection.dfy`): `np.where`, one boundary pair's selection, a zone's selection, and the loop over the pairs (`SelectZone`).
- `LineFit` (`line_fit.dfy`): the per-zone fit, the zone loop as a function (`FrameFit`), and the imperative `FitLine`.
- `Aggregation` (`aggregation.dfy`): the frames of a recording, the running totals, the result (`AllData`), and the imperative frame loop (`FitLineAllData`).
- `Calibration` (`calibration.dfy`): `polyval`, Python's negative list indices, and the error of one reference measurement.

Three details of the code that the model keeps as written:

- **Layout range.** For 360 rays the layout is `np.arange(0, 360)` (line 31). For any other N it is `np.linspace(0, 360, N)` (line 33), which ends at 360. So for N ≥ 2 other than 360, bearing N - 1 is 360 itself, the same direction as bearing 0. `AngleLayout.BaseLayoutRange` states the closed range [0, 360].
- **Wrap test.** A pair counts as a band only when `lo < hi` (line 69), strictly. A pair with equal bounds takes the wrapping branch.
- **Selection order.** A wrapping pair appends the result of `np.where(angles >= lo)` and then that of `np.where(angles <= hi)`. Indices keep that order. An index that passes both tests, or that several pairs select, appears once per selection, and its point is then fitted that many times. `ZoneSelection.WrapSelection` counts the copies, and `ZoneSelection.WrapExample` shows the order.

## Model

| member | source | states |
|---|---|---|
| AngleLayout.LinspaceShape | visualization/bokeh_visualization.py:33 | linspace(start, stop, N) has N entries; it starts at start, ends at stop when N >= 2, and is non-decreasing when start <= stop |
| AngleLayout.LinspaceLast | visualization/bokeh_visualization.py:33 | the last of N >= 2 evenly spaced values is the stop value itself |
| AngleLayout.LinspaceMono | visualization/bokeh_visualization.py:33 | evenly spaced values rise with their index when start <= stop |
| AngleLayout.BaseLayoutRange | visualization/bokeh_visualization.py:30-33 | the unrotated layout is non-decreasing within [0, 360]; for 360 rays bearing i is exactly i; for N ≥ 2 other than 360 it runs from 0 to 360 inclusive |
| AngleLayout.RoundHalfEven | visualization/bokeh_visualization.py:37 | np.rint: the result is within 0.5 of x, and an exact tie goes to the even integer |
| AngleLayout.RoundHalfEvenUnique | visualization/bokeh_visualization.py:37 | only one integer meets that rule, so the rounding is determined |
| AngleLayout.RollShift | visualization/bokeh_visualization.py:37 | the shift is rotation / (360 / N) rounded to the nearest integer |
| AngleLayout.RollIndex | visualization/bokeh_visualization.py:37 | np.roll by k puts input entry (i - k) mod N at position i |
| AngleLayout.RollPermutes | visualization/bokeh_visualization.py:37 | rolling keeps the same multiset of bearings |
| AngleLayout.RollRoundTrip | visualization/bokeh_visualization.py:37 | rolling by k and then by -k gives the layout back |
| AngleLayout.RotatedLayoutIndex | visualization/bokeh_visualization.py:30-37 | rotated bearing i is base bearing (i - shift) mod N |
| AngleLayout.RotatedLayoutPermutes | visualization/bokeh_visualization.py:30-37 | the rotated layout is a permutation of the base layout |
| ScanConversion.ToPointCases | visualization/bokeh_visualization.py:45-51 | a reading gives no point iff it is +inf, -inf, NaN or not above 0; otherwise the point is (cos θ·d, sin θ·d) with θ the bearing in radians |
| ScanConversion.PointOnCircle | visualization/bokeh_visualization.py:47-49 | a converted point lies at its measured range from the sensor |
| ScanConversion.ValidPointNotOrigin | visualization/bokeh_visualization.py:45-49 | no valid reading converts to the origin |
| ScanConversion.ScanToPoints | visualization/bokeh_visualization.py:30-54 | fails exactly when there are no rays; otherwise it returns the rotated layout and messages·N points, point i converted with bearing i mod N |
| ZoneSelection.WhereBound | visualization/bokeh_visualization.py:70-73 | np.where returns only indices of the layout |
| ZoneSelection.WhereAscending | visualization/bokeh_visualization.py:70-73 | np.where returns its indices in strictly ascending order |
| ZoneSelection.WhereCount | visualization/bokeh_visualization.py:70-73 | each index occurs once if its bearing meets the condition, else not at all |
| ZoneSelection.BandSelection | visualization/bokeh_visualization.py:69-70 | a pair with lo < hi selects exactly the bearings in the closed band, ascending |
| ZoneSelection.WrapSelection | visualization/bokeh_visualization.py:71-73 | a pair with lo >= hi selects each bearing at or above lo, and again each at or below hi |
| ZoneSelection.BandExample | visualization/bokeh_visualization.py:69-70 | the band 30..60 over bearings 10, 40, 50, 70 selects indices 1 and 2 |
| ZoneSelection.WrapExample | visualization/bokeh_visualization.py:71-73 | the wrapping pair 350..10 over bearings 5, 355, 180 selects index 1, then index 0 |
| ZoneSelection.ZoneIndicesBound | visualization/bokeh_visualization.py:66-76 | a zone selects only layout indices, so the gather at line 76 is in range |
| ZoneSelection.ZoneIndicesMembers | visualization/bokeh_visualization.py:66-73 | an index is selected iff some boundary pair covers its bearing |
| ZoneSelection.ZoneIndicesWitness | visualization/bokeh_visualization.py:66-73 | a selected index comes with a pair that covers it |
| ZoneSelection.ZoneIndicesComplete | visualization/bokeh_visualization.py:66-73 | every index that some pair covers is selected |
| ZoneSelection.PairMembers | visualization/bokeh_visualization.py:69-73 | one pair selects exactly the bearings it covers, band or wrap |
| ZoneSelection.ZoneIndicesSnoc | visualization/bokeh_visualization.py:67-73 | one more pair appends its selection after the earlier pairs' selections, with no de-duplication |
| ZoneSelection.SelectZone | visualization/bokeh_visualization.py:66-73 | the pair loop fails exactly on an odd boundary list; otherwise it returns the zone's selection |
| LineFit.DropInvalidAppend | visualization/bokeh_visualization.py:77 | dropping invalid points distributes over concatenation, so order is kept |
| LineFit.DropInvalidCount | visualization/bokeh_visualization.py:77 | every valid point is kept as often as it occurs, and nothing else is kept |
| LineFit.DropInvalidKeepsValid | visualization/bokeh_visualization.py:77 | a run of valid points loses nothing |
| LineFit.GatherAppend | visualization/bokeh_visualization.py:76 | gathering along two index lists in turn is gathering along each and concatenating |
| LineFit.ZonePointsSnoc | visualization/bokeh_visualization.py:66-77 | one more boundary pair appends, after the zone's points so far, the valid points that pair selects, in selection order |
| LineFit.SelectionsAt | visualization/bokeh_visualization.py:63-77 | zone i's selection is taken from zone i's own boundary list |
| LineFit.FitZones | visualization/bokeh_visualization.py:63-86 | a successful zone loop records one residual and one line per zone |
| LineFit.FitZonesStopsAt | visualization/bokeh_visualization.py:63-86 | the first failing zone's error is the loop's error |
| LineFit.FitZonesErrors | visualization/bokeh_visualization.py:63-86 | the zone loop can fail only for an odd boundary list, a missing axis, an unbound fit or an empty fit |
| LineFit.FrameFitErrors | visualization/bokeh_visualization.py:58-87 | fit_line fails only with a zone failure, or with NoZones when there are no zones |
| LineFit.FrameFit | visualization/bokeh_visualization.py:58-87 | a successful frame fit has one line per zone and at least one zone |
| LineFit.StepZoneOk | visualization/bokeh_visualization.py:79-86 | a zone step succeeds only on a paired boundary list, a present axis and a non-empty point set; it appends one line and one residual; an x/y axis records polyfit on the zone's points, which becomes the latest fit; another axis records the latest fit's line and its residual divided by the zone's own point count |
| LineFit.FitZonesPrefix | visualization/bokeh_visualization.py:63-86 | the first k zones' results are a prefix of the whole frame's results |
| LineFit.ZoneStep | visualization/bokeh_visualization.py:79-86 | in a successful fit, zone i's line and per-point residual come from polyfit on its points, x against y or y against x as the axis says |
| LineFit.ZoneResult | visualization/bokeh_visualization.py:63-86 | in a successful frame fit, zone i has a paired boundary list, an axis and points, and, for an x or y axis, its line is polyfit on exactly that zone's valid selected points |
| LineFit.FitZonesLast | visualization/bokeh_visualization.py:80-86 | the latest fit is polyfit on the points of the last zone with an x or y axis; every later zone has another axis |
| LineFit.OtherAxisReusesLine | visualization/bokeh_visualization.py:80-86 | a zone whose axis is neither x nor y records the line of the last earlier x/y zone, and that fit's residual divided by its own number of points |
| LineFit.FrameScattering | visualization/bokeh_visualization.py:85-87 | the frame's lines are the zones' lines; scattering is defined iff every zone's residual is, and is then sqrt(sum / zone count) |
| LineFit.SumOptDefined | visualization/bokeh_visualization.py:87 | the residual sum is defined iff every residual is, since one empty residual array makes the sum empty |
| LineFit.SumOptConstant | visualization/bokeh_visualization.py:87 | the sum of c equal residuals v is c·v, and their mean is v |
| LineFit.FitLine | visualization/bokeh_visualization.py:58-87 | the imperative zone loop returns exactly the frame fit |
| Aggregation.ScanCount | visualization/bokeh_visualization.py:92 | floor(len / N) whole frames fit in the recording, and one more does not |
| Aggregation.ScanBounds | visualization/bokeh_visualization.py:95-98 | every slice the loop takes lies inside the recording |
| Aggregation.Frames | visualization/bokeh_visualization.py:95-98 | the frames are count slices, each N points long |
| Aggregation.FrameAt | visualization/bokeh_visualization.py:96-98 | frame k is the slice from k·N to k·N + N, and it lies inside the recording |
| Aggregation.FramesTile | visualization/bokeh_visualization.py:92-98 | the frames laid end to end are the recording's first count·N readings: disjoint, consecutive, in order |
| Aggregation.FitsAt | visualization/bokeh_visualization.py:95-98 | entry k of the fits is fit_line on frame k |
| Aggregation.FitsLines | visualization/bokeh_visualization.py:98 | every frame fit has one line per zone |
| Aggregation.AccumulateStopsAt | visualization/bokeh_visualization.py:95-100 | the first failing frame's error is the loop's error |
| Aggregation.AccumulateErrors | visualization/bokeh_visualization.py:95-100 | the frame loop succeeds iff every frame fits; otherwise it fails with the first failing frame's error |
| Aggregation.AccumulateTotals | visualization/bokeh_visualization.py:93-100 | the totals hold each frame's scattering in order and, per zone, the sum of the frames' lines |
| Aggregation.AverageMeans | visualization/bokeh_visualization.py:101-103 | the averaged scattering is the mean of the frames' values; each zone's line is the element-wise mean of the frames' lines |
| Aggregation.AllDataMeans | visualization/bokeh_visualization.py:91-103 | a successful fit_line_all_data returns the mean scattering and, per zone, the element-wise mean line over its whole frames |
| Aggregation.NoFramesExactly | visualization/bokeh_visualization.py:92-103 | the result fails with NoFrames iff the recording is shorter than one scan |
| Aggregation.RepeatedTotals | visualization/bokeh_visualization.py:93-100 | c frames that all fit as f total c copies of f's scattering and c times its lines |
| Aggregation.AverageRepeated | visualization/bokeh_visualization.py:101-103 | the average of c copies of one frame is that frame |
| Aggregation.IdenticalFrames | visualization/bokeh_visualization.py:91-103 | a recording whose frames all fit alike gives that frame's scattering and lines |
| Aggregation.FitScan | visualization/bokeh_visualization.py:96-98 | fit_line on the slice starting at i·N is frame i's entry among the fits |
| Aggregation.FitLineAllData | visualization/bokeh_visualization.py:91-103 | the imperative frame loop returns exactly the averaged result, including its ZeroRays and NoFrames failures |
| Calibration.PyIndex | visualization/bokeh_visualization.py:289-290 | a list index succeeds iff -len <= k < len, and then names an entry of the list |
| Calibration.NegativeIndex | visualization/bokeh_visualization.py:289-290 | a negative index names the same entry as the index plus the length |
| Calibration.LineError | visualization/bokeh_visualization.py:289-293 | one lidar's error is never below minus the reference distance, and fails only with an IndexError |
| Calibration.Offset | visualization/bokeh_visualization.py:288-300 | both errors are at least minus the reference distance |
| Calibration.OffsetDefined | visualization/bokeh_visualization.py:288-300 | the measurement fails iff an index is missing or names no line of either set, and then with an IndexError |
| Calibration.OffsetValue | visualization/bokeh_visualization.py:288-300 | each error is the absolute difference of a0·x + a1 and b0·x + b1, less the reference distance |
| Calibration.OffsetSymmetric | visualization/bokeh_visualization.py:288-300 | swapping the two line indices changes nothing |
| Calibration.SameLine | visualization/bokeh_visualization.py:288-300 | one line measured against itself gives minus the reference distance for both lidars |
| Calibration.ParallelLines | visualization/bokeh_visualization.py:288-300 | between parallel lines the error does not depend on the position |
| Calibration.ExactWalls | visualization/bokeh_visualization.py:288-300 | walls y = 2 and y = 5, three apart, give error zero for both lidars, one set read through a negative index |

## Left out

- Reading the recording is outside the model: opening the bag, counting messages, collecting timestamps and closing it (lines 12-26). The model takes the concatenated range readings and the message count as inputs.
- The recording's time span (line 28) is not computed. With no messages, the script raises an IndexError at that line, before the layout is built. That failure is not modelled.
- All plotting is left out, as is the JavaScript of the slider and the tap tool: `plot_fitted_line` and the bokeh layout (lines 106-281). It is user interface.
- Floating point is not modelled. Readings, angles and coefficients are exact reals. `Reading` keeps +inf, -inf and NaN as cases, and the layout's 360/(N-1) steps are exact.
- `math.cos`, `math.sin`, `np.sqrt` and `np.polyfit` are parameters (`Trig`, `Solver`). The model states what the code does with their results, not their numerics. `ScanConversion.PointOnCircle` assumes only cos² + sin² = 1.
- The warning print at line 62 is not modelled. A zone list longer than the axis list then fails with `MissingAxis`, as the IndexError at line 80 would.
- LineFit.ZoneFit: for an axis other than x or y whose zone keeps no valid point, the script divides the reused residual by zero, and numpy gives inf, NaN or, when the reused residual is an empty array, an empty residual, with at most a warning. The model reports `EmptyFit` instead.
- Aggregation.FitLineAllData: requires the layout to have one bearing per ray, as every layout built by `bag_scan_to_points` has. With a mismatched layout, numpy's element-wise tests would broadcast or raise, and that is not modelled.
- The calibration table, the loop over it, and the printed mean errors (lines 302-345) are hard-coded data and console output.
