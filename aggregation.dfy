/** The fit over a whole recording: the readings are cut into frames of one
    scan each, every frame is fitted on its own, and the scatterings and the
    lines are averaged over the frames. */
module Aggregation {
  import opened LidarTypes
  import opened LineFit

  /** The index of the first reading of scan i when every scan has n
      readings. It equals i * n (ScanStartIsProduct); written as a sum, it
      lets the proofs step from one scan to the next without multiplying. */
  function ScanStart(i: nat, n: nat): nat
  {
    if i == 0 then 0 else ScanStart(i - 1, n) + n
  }

  lemma {:induction false} ScanStartIsProduct(i: nat, n: nat)
    ensures ScanStart(i, n) == i * n
  {
    if i > 0 {
      ScanStartIsProduct(i - 1, n);
      assert (i - 1) * n + n == i * n;
    }
  }

  lemma {:induction false} ScanStartMono(i: nat, j: nat, n: nat)
    requires i <= j
    ensures ScanStart(i, n) <= ScanStart(j, n)
    decreases j
  {
    if i < j {
      ScanStartMono(i, j - 1, n);
    }
  }

  /** The readings of scan k. */
  function ScanSlice(points: seq<Option<Point>>, n: nat, k: nat): (s: seq<Option<Point>>)
    requires ScanStart(k, n) + n <= |points|
    ensures |s| == n
  {
    points[ScanStart(k, n)..ScanStart(k, n) + n]
  }

  /** The whole scans of a recording of `len` readings: |points| / n of them
      fit, and fewer than n readings are left over after them. */
  lemma ScanCount(len: nat, n: nat)
    requires n > 0
    ensures ScanStart(len / n, n) <= len < ScanStart(len / n, n) + n
  {
    ScanStartIsProduct(len / n, n);
  }

  /** Every scan the loop visits lies inside the recording. */
  lemma ScanBounds(len: nat, n: nat, i: nat)
    requires n > 0 && i < len / n
    ensures ScanStart(i, n) + n <= len
  {
    ScanCount(len, n);
    ScanStartMono(i + 1, len / n, n);
  }

  /** The first `count` frames of a recording, frame k holding scan k. */
  function Frames(points: seq<Option<Point>>, n: nat, count: nat): (fs: seq<seq<Option<Point>>>)
    requires ScanStart(count, n) <= |points|
    ensures |fs| == count
    ensures forall k :: 0 <= k < count ==> |fs[k]| == n
    decreases count
  {
    if count == 0 then [] else Frames(points, n, count - 1) + [ScanSlice(points, n, count - 1)]
  }

  /** Frame k is scan k, the n readings from index k * n on. */
  lemma {:induction false} FrameAt(points: seq<Option<Point>>, n: nat, count: nat, k: nat)
    requires ScanStart(count, n) <= |points| && k < count
    ensures ScanStart(k, n) + n <= |points|
    ensures Frames(points, n, count)[k] == ScanSlice(points, n, k)
    ensures k * n + n <= |points| && Frames(points, n, count)[k] == points[k * n..k * n + n]
    decreases count
  {
    if k < count - 1 {
      FrameAt(points, n, count - 1, k);
    }
    ScanStartIsProduct(k, n);
  }

  /** All frames laid end to end. */
  function Flatten(fs: seq<seq<Option<Point>>>): seq<Option<Point>>
  {
    if fs == [] then [] else Flatten(fs[..|fs| - 1]) + fs[|fs| - 1]
  }

  /** The frames tile the recording: laid end to end they are every reading
      of the first `count` scans, each exactly once, in order. */
  lemma {:induction false} FramesTile(points: seq<Option<Point>>, n: nat, count: nat)
    requires ScanStart(count, n) <= |points|
    ensures Flatten(Frames(points, n, count)) == points[..ScanStart(count, n)]
    ensures count * n <= |points| && Flatten(Frames(points, n, count)) == points[..count * n]
    decreases count
  {
    ScanStartIsProduct(count, n);
    if count > 0 {
      var k := count - 1;
      var fs := Frames(points, n, count);
      assert fs[..k] == Frames(points, n, k);
      FramesTile(points, n, k);
      assert points[..ScanStart(count, n)] == points[..ScanStart(k, n)] + ScanSlice(points, n, k);
    }
  }

  /** Lines added pairwise, as far as the shorter list goes (Python's zip). */
  function AddLines(a: seq<Line>, b: seq<Line>): (r: seq<Line>)
    ensures |r| == if |a| <= |b| then |a| else |b|
  {
    var len := if |a| <= |b| then |a| else |b|;
    seq(len, i requires 0 <= i < len =>
      Line(a[i].slope + b[i].slope, a[i].intercept + b[i].intercept))
  }

  /** Every coefficient divided by d. */
  function ScaleLines(a: seq<Line>, d: real): (r: seq<Line>)
    requires d != 0.0
    ensures |r| == |a|
  {
    seq(|a|, i requires 0 <= i < |a| => Line(a[i].slope / d, a[i].intercept / d))
  }

  /** The all-zero lines the running sum starts from, one per zone. */
  function ZeroLines(count: nat): (r: seq<Line>)
    ensures |r| == count
  {
    seq(count, _ => Line(0.0, 0.0))
  }

  /** The running totals of the frame loop: each frame's scattering, and the
      pairwise sum of the frames' lines. */
  datatype Tally = Tally(scatterings: seq<Option<real>>, lineSum: seq<Line>)

  /** The fits of the first `count` scans, in order: fit_line applied to
      each frame. */
  function Fits(points: seq<Option<Point>>, n: nat, count: nat, angles: seq<real>, zones: seq<seq<real>>,
                focus: seq<Axis>, solver: Solver): (rs: seq<Result<Frame>>)
    requires |angles| == n && ScanStart(count, n) <= |points|
    ensures |rs| == count
    decreases count
  {
    if count == 0 then []
    else Fits(points, n, count - 1, angles, zones, focus, solver) +
         [FrameFit(ScanSlice(points, n, count - 1), angles, zones, focus, solver)]
  }

  /** Entry k of the fits is the fit of frame k. */
  lemma {:induction false} FitsAt(points: seq<Option<Point>>, n: nat, count: nat, angles: seq<real>,
                                  zones: seq<seq<real>>, focus: seq<Axis>, solver: Solver, k: nat)
    requires |angles| == n && ScanStart(count, n) <= |points| && k < count
    ensures ScanStart(k, n) + n <= |points|
    ensures Fits(points, n, count, angles, zones, focus, solver)[k] ==
            FrameFit(Frames(points, n, count)[k], angles, zones, focus, solver)
    ensures Frames(points, n, count)[k] == ScanSlice(points, n, k)
    decreases count
  {
    FrameAt(points, n, count, k);
    if k < count - 1 {
      FitsAt(points, n, count - 1, angles, zones, focus, solver, k);
    }
  }

  /** The frames' fits taken in order into the totals, starting from zero
      lines for `zoneCount` zones; the first failing frame stops the loop. */
  function Accumulate(rs: seq<Result<Frame>>, zoneCount: nat): (r: Result<Tally>)
    ensures r.Ok? ==> |r.value.scatterings| == |rs|
    decreases |rs|
  {
    if rs == [] then Ok(Tally([], ZeroLines(zoneCount)))
    else
      var k := |rs| - 1;
      match Accumulate(rs[..k], zoneCount)
      case Err(e) => Err(e)
      case Ok(t) =>
        match rs[k]
        case Err(e) => Err(e)
        case Ok(f) => Ok(Tally(t.scatterings + [f.scattering], AddLines(t.lineSum, f.lines)))
  }

  /** The averaged result over a recording. */
  datatype Summary = Summary(scattering: Option<real>, lines: seq<Line>)

  /** The mean of the totals over `count` frames. */
  function Average(t: Tally, count: nat): Summary
    requires count > 0
  {
    var sum := SumOpt(t.scatterings);
    Summary(if sum.Some? then Some(sum.value / count as real) else None,
            ScaleLines(t.lineSum, count as real))
  }

  /** What fit_line_all_data returns: every whole scan of the recording is a
      frame; a trailing partial scan is not fitted. */
  function AllData(points: seq<Option<Point>>, n: nat, angles: seq<real>, zones: seq<seq<real>>,
                   focus: seq<Axis>, solver: Solver): Result<Summary>
    requires |angles| == n
  {
    if n == 0 then Err(ZeroRays)
    else
      var count := |points| / n;
      ScanCount(|points|, n);
      match Accumulate(Fits(points, n, count, angles, zones, focus, solver), |zones|)
      case Err(e) => Err(e)
      case Ok(t) => if count == 0 then Err(NoFrames) else Ok(Average(t, count))
  }

  /** One frame more: the totals of the first i + 1 frames are the totals of
      the first i with frame i's fit added, or the earlier failure. */
  lemma AccumulateStep(rs: seq<Result<Frame>>, zoneCount: nat, i: nat)
    requires i < |rs|
    ensures Accumulate(rs[..i + 1], zoneCount) ==
      match Accumulate(rs[..i], zoneCount)
      case Err(e) => Err(e)
      case Ok(t) =>
        match rs[i]
        case Err(e) => Err(e)
        case Ok(f) => Ok(Tally(t.scatterings + [f.scattering], AddLines(t.lineSum, f.lines)))
  {
    var pre := rs[..i + 1];
    assert pre[..i] == rs[..i] && pre[i] == rs[i];
  }

  /** A failure on a prefix of the frames is the failure of the whole loop. */
  lemma {:induction false} AccumulateStopsAt(rs: seq<Result<Frame>>, zoneCount: nat, k: nat)
    requires k <= |rs|
    requires Accumulate(rs[..k], zoneCount).Err?
    ensures Accumulate(rs, zoneCount) == Accumulate(rs[..k], zoneCount)
    decreases |rs| - k
  {
    if k == |rs| {
      assert rs[..k] == rs;
    } else {
      AccumulateStep(rs, zoneCount, k);
      AccumulateStopsAt(rs, zoneCount, k + 1);
    }
  }

  /** The loop succeeds exactly when every frame's fit succeeds; otherwise
      it fails with the error of the first frame that fails. */
  lemma {:induction false} AccumulateErrors(rs: seq<Result<Frame>>, zoneCount: nat)
    ensures Accumulate(rs, zoneCount).Ok? <==> forall k :: 0 <= k < |rs| ==> rs[k].Ok?
    ensures Accumulate(rs, zoneCount).Err? ==>
      exists k :: 0 <= k < |rs| && rs[k] == Err(Accumulate(rs, zoneCount).error) &&
        forall j :: 0 <= j < k ==> rs[j].Ok?
    decreases |rs|
  {
    if rs != [] {
      var k := |rs| - 1;
      var init := rs[..k];
      assert forall j :: 0 <= j < k ==> init[j] == rs[j];
      AccumulateErrors(init, zoneCount);
    }
  }

  /** No frame's fit fails with NoFrames, so a recording of at least one
      whole scan never does either: NoFrames means exactly that the
      recording is shorter than one scan. */
  lemma NoFramesExactly(points: seq<Option<Point>>, n: nat, angles: seq<real>, zones: seq<seq<real>>,
                        focus: seq<Axis>, solver: Solver)
    requires |angles| == n && n > 0
    ensures AllData(points, n, angles, zones, focus, solver) == Err(NoFrames) <==> |points| < n
  {
    var count := |points| / n;
    ScanCount(|points|, n);
    var rs := Fits(points, n, count, angles, zones, focus, solver);
    var acc := Accumulate(rs, |zones|);
    if |points| < n {
      assert count == 0;
    } else {
      assert count >= 1;
      AccumulateErrors(rs, |zones|);
      if acc.Err? {
        var k :| 0 <= k < |rs| && rs[k] == Err(acc.error);
        FitsAt(points, n, count, angles, zones, focus, solver, k);
        FrameFitErrors(ScanSlice(points, n, k), angles, zones, focus, solver);
        assert acc.error != NoFrames;
      }
    }
  }

  /** Every frame's fit has one line per zone. */
  lemma {:induction false} FitsLines(points: seq<Option<Point>>, n: nat, count: nat, angles: seq<real>,
                                     zones: seq<seq<real>>, focus: seq<Axis>, solver: Solver)
    requires |angles| == n && ScanStart(count, n) <= |points|
    ensures forall k :: 0 <= k < count && Fits(points, n, count, angles, zones, focus, solver)[k].Ok? ==>
              |Fits(points, n, count, angles, zones, focus, solver)[k].value.lines| == |zones|
    decreases count
  {
    if count > 0 {
      ScanStartMono(count - 1, count, n);
      FitsLines(points, n, count - 1, angles, zones, focus, solver);
    }
  }

  /** The frames' scattering values, in frame order (a failed fit has none). */
  function ScatteringOf(rs: seq<Result<Frame>>): (r: seq<Option<real>>)
    ensures |r| == |rs|
  {
    seq(|rs|, k requires 0 <= k < |rs| => if rs[k].Ok? then rs[k].value.scattering else None)
  }

  /** Zone z's line of a frame's fit (zero when there is none). */
  function LineOf(r: Result<Frame>, z: nat): Line
  {
    if r.Ok? && z < |r.value.lines| then r.value.lines[z] else Line(0.0, 0.0)
  }

  /** The coefficients of zone z summed over the frames. */
  function ColumnSum(rs: seq<Result<Frame>>, z: nat): Line
    decreases |rs|
  {
    if rs == [] then Line(0.0, 0.0)
    else
      var s, l := ColumnSum(rs[..|rs| - 1], z), LineOf(rs[|rs| - 1], z);
      Line(s.slope + l.slope, s.intercept + l.intercept)
  }

  /** When every frame fits with one line per zone, the totals hold each
      frame's scattering in order and, per zone, the sum of its lines. */
  lemma {:induction false} AccumulateTotals(rs: seq<Result<Frame>>, zoneCount: nat)
    requires forall k :: 0 <= k < |rs| ==> rs[k].Ok? && |rs[k].value.lines| == zoneCount
    ensures Accumulate(rs, zoneCount).Ok?
    ensures Accumulate(rs, zoneCount).value.scatterings == ScatteringOf(rs)
    ensures |Accumulate(rs, zoneCount).value.lineSum| == zoneCount
    ensures forall z :: 0 <= z < zoneCount ==> Accumulate(rs, zoneCount).value.lineSum[z] == ColumnSum(rs, z)
    decreases |rs|
  {
    if rs != [] {
      var k := |rs| - 1;
      var init := rs[..k];
      assert forall j :: 0 <= j < k ==> init[j] == rs[j];
      AccumulateTotals(init, zoneCount);
      var t := Accumulate(init, zoneCount).value;
      assert t.scatterings + [rs[k].value.scattering] == ScatteringOf(rs);
    }
  }

  /** The average of frames that all fit with one line per zone: the mean
      of their scattering values and, per zone, the mean of their lines. */
  lemma AverageMeans(rs: seq<Result<Frame>>, zoneCount: nat)
    requires |rs| > 0
    requires forall k :: 0 <= k < |rs| ==> rs[k].Ok? && |rs[k].value.lines| == zoneCount
    ensures Accumulate(rs, zoneCount).Ok?
    ensures var c := |rs| as real;
            var s := Average(Accumulate(rs, zoneCount).value, |rs|);
            s.scattering == MeanOpt(ScatteringOf(rs)) &&
            |s.lines| == zoneCount &&
            forall z :: 0 <= z < zoneCount ==>
              s.lines[z] == Line(ColumnSum(rs, z).slope / c, ColumnSum(rs, z).intercept / c)
  {
    AccumulateTotals(rs, zoneCount);
  }

  /** The averaged result over a recording is the mean of its frames'
      scattering values and, per zone, the element-wise mean of their lines. */
  lemma AllDataMeans(points: seq<Option<Point>>, n: nat, angles: seq<real>, zones: seq<seq<real>>,
                     focus: seq<Axis>, solver: Solver)
    requires |angles| == n && n > 0
    requires AllData(points, n, angles, zones, focus, solver).Ok?
    ensures |points| / n > 0 && ScanStart(|points| / n, n) <= |points|
    ensures var count := |points| / n;
            var fits := Fits(points, n, count, angles, zones, focus, solver);
            var s := AllData(points, n, angles, zones, focus, solver).value;
            s.scattering == MeanOpt(ScatteringOf(fits)) &&
            |s.lines| == |zones| &&
            forall z :: 0 <= z < |zones| ==>
              s.lines[z] == Line(ColumnSum(fits, z).slope / count as real, ColumnSum(fits, z).intercept / count as real)
  {
    var count := |points| / n;
    ScanCount(|points|, n);
    var fits := Fits(points, n, count, angles, zones, focus, solver);
    AccumulateErrors(fits, |zones|);
    FitsLines(points, n, count, angles, zones, focus, solver);
    AverageMeans(fits, |zones|);
  }

  /** Each line scaled by c. */
  function Times(lines: seq<Line>, c: real): (r: seq<Line>)
    ensures |r| == |lines|
  {
    seq(|lines|, i requires 0 <= i < |lines| => Line(c * lines[i].slope, c * lines[i].intercept))
  }

  /** Adding the lines once more to k times them gives k + 1 times them. */
  lemma TimesStep(lines: seq<Line>, k: nat)
    ensures AddLines(Times(lines, k as real), lines) == Times(lines, (k + 1) as real)
  {
    var sum := AddLines(Times(lines, k as real), lines);
    var c := (k + 1) as real;
    forall i | 0 <= i < |sum| ensures sum[i] == Times(lines, c)[i] {
      assert (k as real) * lines[i].slope + lines[i].slope == c * lines[i].slope;
      assert (k as real) * lines[i].intercept + lines[i].intercept == c * lines[i].intercept;
    }
  }

  /** The totals of c frames that all fit as f: c copies of its scattering,
      and c times its lines. */
  lemma {:induction false} RepeatedTotals(rs: seq<Result<Frame>>, f: Frame)
    requires forall k :: 0 <= k < |rs| ==> rs[k] == Ok(f)
    ensures Accumulate(rs, |f.lines|) == Ok(Tally(seq(|rs|, _ => f.scattering), Times(f.lines, |rs| as real)))
    decreases |rs|
  {
    if rs == [] {
      assert ZeroLines(|f.lines|) == Times(f.lines, 0 as real);
    } else {
      var k := |rs| - 1;
      var init := rs[..k];
      assert forall j :: 0 <= j < k ==> init[j] == rs[j];
      RepeatedTotals(init, f);
      TimesStep(f.lines, k);
      assert seq(k, _ => f.scattering) + [f.scattering] == seq(|rs|, _ => f.scattering);
    }
  }

  /** The average of c frames that all fit as f is f's scattering and lines. */
  lemma AverageRepeated(f: Frame, count: nat)
    requires count > 0
    ensures Average(Tally(seq(count, _ => f.scattering), Times(f.lines, count as real)), count) ==
            Summary(f.scattering, f.lines)
  {
    var c := count as real;
    var t := Tally(seq(count, _ => f.scattering), Times(f.lines, c));
    var avg := Average(t, count);
    forall i | 0 <= i < |f.lines| ensures avg.lines[i] == f.lines[i] {
      assert c * f.lines[i].slope / c == f.lines[i].slope;
      assert c * f.lines[i].intercept / c == f.lines[i].intercept;
    }
    assert avg.lines == f.lines;
    SumOptDefined(t.scatterings);
    if f.scattering.Some? {
      SumOptConstant(t.scatterings, f.scattering.value);
      assert SumOpt(t.scatterings).value / c == f.scattering.value;
    } else {
      assert t.scatterings[0].None?;
    }
  }

  /** Averaging a recording whose frames all fit alike gives that frame's
      scattering and lines back. */
  lemma IdenticalFrames(points: seq<Option<Point>>, n: nat, angles: seq<real>, zones: seq<seq<real>>,
                        focus: seq<Axis>, solver: Solver, f: Frame)
    requires |angles| == n && n > 0 && |points| >= n
    requires forall k: nat :: ScanStart(k, n) + n <= |points| ==>
      FrameFit(ScanSlice(points, n, k), angles, zones, focus, solver) == Ok(f)
    ensures AllData(points, n, angles, zones, focus, solver) == Ok(Summary(f.scattering, f.lines))
  {
    var count := |points| / n;
    ScanCount(|points|, n);
    var rs := Fits(points, n, count, angles, zones, focus, solver);
    forall k | 0 <= k < count ensures rs[k] == Ok(f) {
      FitsAt(points, n, count, angles, zones, focus, solver, k);
    }
    assert count >= 1;
    assert |f.lines| == |zones|;
    RepeatedTotals(rs, f);
    AverageRepeated(f, count);
  }

  /** fit_line on scan i of the recording, the slice that starts at
      startIndex: the scan's entry among the fits of the recording. */
  method FitScan(points: seq<Option<Point>>, n: nat, count: nat, i: nat, startIndex: nat, angles: seq<real>,
                 zones: seq<seq<real>>, focus: seq<Axis>, solver: Solver) returns (frame: Result<Frame>)
    requires |angles| == n && ScanStart(count, n) <= |points| && i < count && startIndex == i * n
    ensures frame == Fits(points, n, count, angles, zones, focus, solver)[i]
  {
    FitsAt(points, n, count, angles, zones, focus, solver, i);
    ScanStartIsProduct(i, n);
    var stopIndex := startIndex + n;
    frame := FitLine(points[startIndex..stopIndex], angles, zones, focus, solver);
    assert points[startIndex..stopIndex] == ScanSlice(points, n, i);
  }

  /** fit_line_all_data: the loop over the whole scans of a recording. */
  method FitLineAllData(points: seq<Option<Point>>, n: nat, angles: seq<real>, zones: seq<seq<real>>,
                        focus: seq<Axis>, solver: Solver) returns (r: Result<Summary>)
    requires |angles| == n
    ensures r == AllData(points, n, angles, zones, focus, solver)
  {
    if n == 0 {
      return Err(ZeroRays);
    }
    var iterations := |points| / n;
    ScanCount(|points|, n);
    ghost var fits := Fits(points, n, iterations, angles, zones, focus, solver);
    var scattering: seq<Option<real>> := [];
    var line := ZeroLines(|zones|);
    var i := 0;
    while i < iterations
      invariant 0 <= i <= iterations
      invariant Accumulate(fits[..i], |zones|) == Ok(Tally(scattering, line))
    {
      var startIndex := i * n;
      var frame := FitScan(points, n, iterations, i, startIndex, angles, zones, focus, solver);
      AccumulateStep(fits, |zones|, i);
      if frame.Err? {
        AccumulateStopsAt(fits, |zones|, i + 1);
        return Err(frame.error);
      }
      scattering := scattering + [frame.value.scattering];
      line := AddLines(line, frame.value.lines);
      i := i + 1;
    }
    assert fits[..i] == fits;
    if iterations == 0 {
      return Err(NoFrames);
    }
    return Ok(Average(Tally(scattering, line), iterations));
  }
}
