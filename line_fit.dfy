/** The per-frame fit: for each zone, the valid points it selects are fitted
    with a degree-1 least-squares line along the zone's declared axis; the
    frame's scattering is the square root of the mean, over the zones, of
    each zone's residual divided by its number of points. */
module LineFit {
  import opened LidarTypes
  import opened ZoneSelection

  /** The entries at the selected indices, in selection order (numpy's fancy
      indexing `points[index]`). */
  function Gather(points: seq<Option<Point>>, index: seq<nat>): (r: seq<Option<Point>>)
    requires forall k :: 0 <= k < |index| ==> index[k] < |points|
    ensures |r| == |index|
    ensures forall k :: 0 <= k < |index| ==> r[k] == points[index[k]]
  {
    seq(|index|, k requires 0 <= k < |index| => points[index[k]])
  }

  /** The points of ps, in their order, without the None entries. */
  function DropInvalid(ps: seq<Option<Point>>): (r: seq<Point>)
    ensures |r| <= |ps|
    decreases |ps|
  {
    if ps == [] then []
    else
      var m := |ps| - 1;
      DropInvalid(ps[..m]) + (if ps[m].Some? then [ps[m].value] else [])
  }

  /** Dropping distributes over concatenation, so the points keep their
      relative order. */
  lemma {:induction false} DropInvalidAppend(a: seq<Option<Point>>, b: seq<Option<Point>>)
    ensures DropInvalid(a + b) == DropInvalid(a) + DropInvalid(b)
    decreases |b|
  {
    if b == [] {
      assert a + b == a;
    } else {
      var m := |b| - 1;
      assert (a + b)[..|a + b| - 1] == a + b[..m];
      DropInvalidAppend(a, b[..m]);
    }
  }

  /** Every point is kept as often as it occurs, and nothing else is kept. */
  lemma {:induction false} DropInvalidCount(ps: seq<Option<Point>>, p: Point)
    ensures multiset(DropInvalid(ps))[p] == multiset(ps)[Some(p)]
    decreases |ps|
  {
    if ps != [] {
      var m := |ps| - 1;
      var init := ps[..m];
      DropInvalidCount(init, p);
      assert ps == init + [ps[m]];
      assert multiset(ps)[Some(p)] == multiset(init)[Some(p)] + multiset([ps[m]])[Some(p)];
      assert DropInvalid(ps) == DropInvalid(init) + (if ps[m].Some? then [ps[m].value] else []);
    }
  }

  /** A run without None entries loses nothing. */
  lemma {:induction false} DropInvalidKeepsValid(ps: seq<Option<Point>>)
    requires forall k :: 0 <= k < |ps| ==> ps[k].Some?
    ensures |DropInvalid(ps)| == |ps|
    ensures forall k :: 0 <= k < |ps| ==> DropInvalid(ps)[k] == ps[k].value
    decreases |ps|
  {
    if ps != [] {
      var m := |ps| - 1;
      DropInvalidKeepsValid(ps[..m]);
      assert forall k :: 0 <= k < m ==> ps[..m][k] == ps[k];
    }
  }

  function Xs(q: seq<Point>): (r: seq<real>)
    ensures |r| == |q|
  {
    seq(|q|, k requires 0 <= k < |q| => q[k].x)
  }

  function Ys(q: seq<Point>): (r: seq<real>)
    ensures |r| == |q|
  {
    seq(|q|, k requires 0 <= k < |q| => q[k].y)
  }

  /** The points a zone selects, in selection order, without None entries. */
  function ZonePoints(points: seq<Option<Point>>, angles: seq<real>, bounds: seq<real>): seq<Point>
    requires |points| == |angles| && |bounds| % 2 == 0
  {
    ZoneIndicesBound(angles, bounds);
    DropInvalid(Gather(points, ZoneIndices(angles, bounds)))
  }

  /** Gathering along two index lists one after the other is gathering
      along each and concatenating. */
  lemma GatherAppend(points: seq<Option<Point>>, a: seq<nat>, b: seq<nat>)
    requires forall k :: 0 <= k < |a + b| ==> (a + b)[k] < |points|
    ensures forall k :: 0 <= k < |a| ==> a[k] < |points|
    ensures forall k :: 0 <= k < |b| ==> b[k] < |points|
    ensures Gather(points, a + b) == Gather(points, a) + Gather(points, b)
  {
    assert forall k :: 0 <= k < |a| ==> a[k] == (a + b)[k];
    assert forall k :: 0 <= k < |b| ==> b[k] == (a + b)[|a| + k];
  }

  /** One more boundary pair adds, after the zone's points so far, the valid
      points that pair selects, in selection order. */
  lemma ZonePointsSnoc(points: seq<Option<Point>>, angles: seq<real>, bounds: seq<real>, lo: real, hi: real)
    requires |points| == |angles| && |bounds| % 2 == 0
    ensures |bounds + [lo, hi]| % 2 == 0
    ensures forall k :: 0 <= k < |PairSelection(angles, lo, hi)| ==> PairSelection(angles, lo, hi)[k] < |points|
    ensures ZonePoints(points, angles, bounds + [lo, hi]) ==
            ZonePoints(points, angles, bounds) + DropInvalid(Gather(points, PairSelection(angles, lo, hi)))
  {
    EvenStep(|bounds|);
    var before, pair := ZoneIndices(angles, bounds), PairSelection(angles, lo, hi);
    var all := ZoneIndices(angles, bounds + [lo, hi]);
    ZoneIndicesSnoc(angles, bounds, lo, hi);
    ZoneIndicesBound(angles, bounds + [lo, hi]);
    GatherAppend(points, before, pair);
    DropInvalidAppend(Gather(points, before), Gather(points, pair));
    assert ZonePoints(points, angles, bounds + [lo, hi]) == DropInvalid(Gather(points, all));
  }

  /** A zone's selected points, or None when its boundary list has an
      unpaired last entry. */
  function Select(points: seq<Option<Point>>, angles: seq<real>, bounds: seq<real>): Option<seq<Point>>
    requires |points| == |angles|
  {
    if |bounds| % 2 == 0 then Some(ZonePoints(points, angles, bounds)) else None
  }

  /** Each zone's selection, zone by zone. */
  function Selections(points: seq<Option<Point>>, angles: seq<real>, zones: seq<seq<real>>): (s: seq<Option<seq<Point>>>)
    requires |points| == |angles|
    ensures |s| == |zones|
    decreases |zones|
  {
    if zones == [] then []
    else Selections(points, angles, zones[..|zones| - 1]) + [Select(points, angles, zones[|zones| - 1])]
  }

  lemma {:induction false} SelectionsAt(points: seq<Option<Point>>, angles: seq<real>, zones: seq<seq<real>>, i: nat)
    requires |points| == |angles| && i < |zones|
    ensures Selections(points, angles, zones)[i] == Select(points, angles, zones[i])
    decreases |zones|
  {
    var k := |zones| - 1;
    if i < k {
      SelectionsAt(points, angles, zones[..k], i);
    }
  }

  /** The solver's fit of a zone's points along its axis: y against x for
      the x axis, x against y for the y axis. */
  function SolverFit(q: seq<Point>, axis: Axis, solver: Solver): Fit
    requires axis != AxisOther
  {
    if axis == AxisX then solver.polyfit(Xs(q), Ys(q)) else solver.polyfit(Ys(q), Xs(q))
  }

  /** The fit used for one zone's points. An axis other than x or y fits
      nothing and reuses the latest fit, which must exist. */
  function ZoneFit(q: seq<Point>, axis: Axis, zone: nat, last: Option<Fit>, solver: Solver): Result<Fit>
  {
    match axis
    case AxisX => if q == [] then Err(EmptyFit(zone)) else Ok(SolverFit(q, axis, solver))
    case AxisY => if q == [] then Err(EmptyFit(zone)) else Ok(SolverFit(q, axis, solver))
    case AxisOther =>
      if last.None? then Err(UnboundFit(zone))
      else if q == [] then Err(EmptyFit(zone))
      else Ok(last.value)
  }

  /** The residual divided by the number of points fitted; an omitted
      residual stays omitted. */
  function PerPoint(residual: Option<real>, count: nat): Option<real>
    requires count > 0
  {
    match residual
    case None => None
    case Some(v) => Some(v / count as real)
  }

  /** The loop state of the per-frame fit: the per-point residual and the
      line of each zone so far, and the latest fit the solver returned. */
  datatype FitState = FitState(residuals: seq<Option<real>>, poly: seq<Line>, last: Option<Fit>)

  /** One zone's step on its selection: check the boundaries and the axis,
      fit, record. */
  function StepZone(sel: Option<seq<Point>>, zone: nat, focus: seq<Axis>, solver: Solver, st: FitState): Result<FitState>
  {
    if sel.None? then Err(OddBoundaryList(zone))
    else if zone >= |focus| then Err(MissingAxis(zone))
    else
      match ZoneFit(sel.value, focus[zone], zone, st.last, solver)
      case Err(e) => Err(e)
      case Ok(fit) =>
        Ok(FitState(st.residuals + [PerPoint(fit.residual, |sel.value|)], st.poly + [fit.coeffs],
                    if focus[zone] == AxisOther then st.last else Some(fit)))
  }

  /** The zones processed in order; the first failing zone stops the fit. */
  function FitZones(sels: seq<Option<seq<Point>>>, focus: seq<Axis>, solver: Solver): (r: Result<FitState>)
    ensures r.Ok? ==> |r.value.residuals| == |sels| && |r.value.poly| == |sels|
    decreases |sels|
  {
    if sels == [] then Ok(FitState([], [], None))
    else
      var i := |sels| - 1;
      match FitZones(sels[..i], focus, solver)
      case Err(e) => Err(e)
      case Ok(st) => StepZone(sels[i], i, focus, solver, st)
  }

  /** The sum of the residuals; one omitted residual makes the sum omitted,
      as adding an empty array to a one-element array gives an empty one. */
  function SumOpt(rs: seq<Option<real>>): Option<real>
    decreases |rs|
  {
    if rs == [] then Some(0.0)
    else
      var prefix, last := SumOpt(rs[..|rs| - 1]), rs[|rs| - 1];
      if prefix.Some? && last.Some? then Some(prefix.value + last.value) else None
  }

  function MeanOpt(rs: seq<Option<real>>): Option<real>
    requires |rs| > 0
  {
    match SumOpt(rs)
    case None => None
    case Some(s) => Some(s / |rs| as real)
  }

  /** The result of the per-frame fit. */
  datatype Frame = Frame(scattering: Option<real>, lines: seq<Line>)

  /** What fit_line returns for one frame. */
  function FrameFit(points: seq<Option<Point>>, angles: seq<real>, zones: seq<seq<real>>,
                    focus: seq<Axis>, solver: Solver): (r: Result<Frame>)
    requires |points| == |angles|
    ensures r.Ok? ==> |r.value.lines| == |zones| && |zones| > 0
  {
    match FitZones(Selections(points, angles, zones), focus, solver)
    case Err(e) => Err(e)
    case Ok(st) =>
      if |zones| == 0 then Err(NoZones)
      else
        Ok(Frame(match MeanOpt(st.residuals) case None => None case Some(m) => Some(solver.sqrt(m)), st.poly))
  }

  /** The sum is defined exactly when every residual is. */
  lemma {:induction false} SumOptDefined(rs: seq<Option<real>>)
    ensures SumOpt(rs).Some? <==> forall k :: 0 <= k < |rs| ==> rs[k].Some?
    decreases |rs|
  {
    if rs != [] {
      var m := |rs| - 1;
      SumOptDefined(rs[..m]);
      assert forall k :: 0 <= k < m ==> rs[..m][k] == rs[k];
    }
  }

  /** n equal residuals v sum to n * v, so their mean is v. */
  lemma {:induction false} SumOptConstant(rs: seq<Option<real>>, v: real)
    requires forall k :: 0 <= k < |rs| ==> rs[k] == Some(v)
    ensures SumOpt(rs).Some? && SumOpt(rs).value == (|rs| as real) * v
    ensures |rs| > 0 ==> MeanOpt(rs).Some? && MeanOpt(rs).value == v
    decreases |rs|
  {
    if rs != [] {
      var m := |rs| - 1;
      var n := |rs| as real;
      SumOptConstant(rs[..m], v);
      assert SumOpt(rs[..m]).value == (m as real) * v;
      assert SumOpt(rs).value == (m as real) * v + v;
      assert (m as real) * v + v == n * v;
      assert n * v / n == v;
    }
  }

  /** One zone more: the fit of the first i + 1 zones is zone i's step from
      the fit of the first i, or the earlier failure. */
  lemma FitZonesStep(sels: seq<Option<seq<Point>>>, focus: seq<Axis>, solver: Solver, i: nat)
    requires i < |sels|
    ensures FitZones(sels[..i], focus, solver).Ok? ==>
      FitZones(sels[..i + 1], focus, solver) ==
      StepZone(sels[i], i, focus, solver, FitZones(sels[..i], focus, solver).value)
    ensures FitZones(sels[..i], focus, solver).Err? ==>
      FitZones(sels[..i + 1], focus, solver) == FitZones(sels[..i], focus, solver)
  {
    var pre := sels[..i + 1];
    assert pre[..i] == sels[..i] && pre[i] == sels[i];
  }

  /** A failure on a prefix of the zones is the failure of the whole fit. */
  lemma {:induction false} FitZonesStopsAt(sels: seq<Option<seq<Point>>>, focus: seq<Axis>, solver: Solver, k: nat)
    requires k <= |sels|
    requires FitZones(sels[..k], focus, solver).Err?
    ensures FitZones(sels, focus, solver) == FitZones(sels[..k], focus, solver)
    decreases |sels| - k
  {
    if k == |sels| {
      assert sels[..k] == sels;
    } else {
      FitZonesStep(sels, focus, solver, k);
      FitZonesStopsAt(sels, focus, solver, k + 1);
    }
  }

  /** The ways a zone loop fails. */
  predicate ZoneFailure(e: Failure)
  {
    e.OddBoundaryList? || e.MissingAxis? || e.UnboundFit? || e.EmptyFit?
  }

  /** The zone loop fails only for a reason of one of its zones. */
  lemma {:induction false} FitZonesErrors(sels: seq<Option<seq<Point>>>, focus: seq<Axis>, solver: Solver)
    ensures FitZones(sels, focus, solver).Err? ==> ZoneFailure(FitZones(sels, focus, solver).error)
    decreases |sels|
  {
    if sels != [] {
      FitZonesErrors(sels[..|sels| - 1], focus, solver);
    }
  }

  /** A frame's fit fails for a reason of one of its zones, or because it
      has no zone at all. */
  lemma FrameFitErrors(points: seq<Option<Point>>, angles: seq<real>, zones: seq<seq<real>>,
                       focus: seq<Axis>, solver: Solver)
    requires |points| == |angles|
    ensures FrameFit(points, angles, zones, focus, solver).Err? ==>
      var e := FrameFit(points, angles, zones, focus, solver).error;
      ZoneFailure(e) || (e == NoZones && zones == [])
  {
    FitZonesErrors(Selections(points, angles, zones), focus, solver);
  }

  /** What a successful step records: one more residual and line, those of
      the solver's fit of the zone for the x or y axis, which becomes the
      latest fit, and those of the latest fit, which is kept, for any other
      axis. */
  lemma StepZoneOk(sel: Option<seq<Point>>, zone: nat, focus: seq<Axis>, solver: Solver, st: FitState)
    requires StepZone(sel, zone, focus, solver, st).Ok?
    ensures var st' := StepZone(sel, zone, focus, solver, st).value;
            sel.Some? && |sel.value| > 0 && zone < |focus| &&
            st'.poly == st.poly + [st'.poly[|st.poly|]] &&
            st'.residuals == st.residuals + [st'.residuals[|st.residuals|]] &&
            (focus[zone] == AxisOther ==>
               st.last.Some? && st'.last == st.last &&
               st'.poly[|st.poly|] == st.last.value.coeffs &&
               st'.residuals[|st.residuals|] == PerPoint(st.last.value.residual, |sel.value|)) &&
            (focus[zone] != AxisOther ==>
               st'.last == Some(SolverFit(sel.value, focus[zone], solver)) &&
               st'.poly[|st.poly|] == st'.last.value.coeffs &&
               st'.residuals[|st.residuals|] == PerPoint(st'.last.value.residual, |sel.value|))
  {
  }

  /** The state after a prefix of the zones is the prefix of the final state. */
  lemma {:induction false} FitZonesPrefix(sels: seq<Option<seq<Point>>>, focus: seq<Axis>, solver: Solver, k: nat)
    requires k <= |sels|
    requires FitZones(sels, focus, solver).Ok?
    ensures FitZones(sels[..k], focus, solver).Ok?
    ensures FitZones(sels[..k], focus, solver).value.residuals == FitZones(sels, focus, solver).value.residuals[..k]
    ensures FitZones(sels[..k], focus, solver).value.poly == FitZones(sels, focus, solver).value.poly[..k]
    decreases |sels|
  {
    if k < |sels| {
      var i := |sels| - 1;
      var init := sels[..i];
      assert sels[..i + 1] == sels;
      FitZonesStep(sels, focus, solver, i);
      var before := FitZones(init, focus, solver).value;
      StepZoneOk(sels[i], i, focus, solver, before);
      FitZonesPrefix(init, focus, solver, k);
      assert init[..k] == sels[..k];
    } else {
      assert sels[..k] == sels;
    }
  }

  /** Zone i of a successful fit: it kept at least one point, it has an axis,
      and along the x or y axis its line and per-point residual are the
      solver's fit of those points. */
  lemma ZoneStep(sels: seq<Option<seq<Point>>>, focus: seq<Axis>, solver: Solver, i: nat)
    requires i < |sels|
    requires FitZones(sels, focus, solver).Ok?
    ensures sels[i].Some? && |sels[i].value| > 0 && i < |focus|
    ensures var q := sels[i].value;
            var st := FitZones(sels, focus, solver).value;
            (focus[i] == AxisX ==>
               st.poly[i] == solver.polyfit(Xs(q), Ys(q)).coeffs &&
               st.residuals[i] == PerPoint(solver.polyfit(Xs(q), Ys(q)).residual, |q|)) &&
            (focus[i] == AxisY ==>
               st.poly[i] == solver.polyfit(Ys(q), Xs(q)).coeffs &&
               st.residuals[i] == PerPoint(solver.polyfit(Ys(q), Xs(q)).residual, |q|))
  {
    FitZonesPrefix(sels, focus, solver, i + 1);
    FitZonesPrefix(sels, focus, solver, i);
    FitZonesStep(sels, focus, solver, i);
    var before := FitZones(sels[..i], focus, solver).value;
    var after := FitZones(sels[..i + 1], focus, solver).value;
    var st := FitZones(sels, focus, solver).value;
    StepZoneOk(sels[i], i, focus, solver, before);
    assert st.poly[i] == after.poly[i] && st.residuals[i] == after.residuals[i];
  }

  /** Zone i of a successful frame fit: its boundary list is paired, it has
      an axis, it kept at least one valid point, and along the x or y axis its
      line is the solver's fit of those points. */
  lemma ZoneResult(points: seq<Option<Point>>, angles: seq<real>, zones: seq<seq<real>>,
                   focus: seq<Axis>, solver: Solver, i: nat)
    requires |points| == |angles| && i < |zones|
    requires FrameFit(points, angles, zones, focus, solver).Ok?
    ensures |zones[i]| % 2 == 0 && i < |focus|
    ensures |ZonePoints(points, angles, zones[i])| > 0
    ensures var q := ZonePoints(points, angles, zones[i]);
            var lines := FrameFit(points, angles, zones, focus, solver).value.lines;
            (focus[i] == AxisX ==> lines[i] == solver.polyfit(Xs(q), Ys(q)).coeffs) &&
            (focus[i] == AxisY ==> lines[i] == solver.polyfit(Ys(q), Xs(q)).coeffs)
  {
    var sels := Selections(points, angles, zones);
    SelectionsAt(points, angles, zones, i);
    ZoneStep(sels, focus, solver, i);
  }

  /** The latest fit in the state is the solver's fit of the last zone with
      an x or y axis; every later zone has another axis. */
  lemma {:induction false} FitZonesLast(sels: seq<Option<seq<Point>>>, focus: seq<Axis>, solver: Solver)
    requires FitZones(sels, focus, solver).Ok?
    ensures var st := FitZones(sels, focus, solver).value;
            st.last.Some? ==>
              exists j :: 0 <= j < |sels| && j < |focus| && focus[j] != AxisOther && sels[j].Some? &&
                          st.last.value == SolverFit(sels[j].value, focus[j], solver) &&
                          st.poly[j] == st.last.value.coeffs &&
                          forall m :: j < m < |sels| ==> m < |focus| && focus[m] == AxisOther
    decreases |sels|
  {
    if sels != [] {
      var i := |sels| - 1;
      assert sels[..i + 1] == sels;
      FitZonesStep(sels, focus, solver, i);
      var before := FitZones(sels[..i], focus, solver).value;
      var st := FitZones(sels, focus, solver).value;
      StepZoneOk(sels[i], i, focus, solver, before);
      FitZonesLast(sels[..i], focus, solver);
      if st.last.Some? {
        if focus[i] == AxisOther {
          var j :| 0 <= j < i && j < |focus| && focus[j] != AxisOther && sels[..i][j].Some? &&
                   before.last.value == SolverFit(sels[..i][j].value, focus[j], solver) &&
                   before.poly[j] == before.last.value.coeffs &&
                   forall m :: j < m < i ==> m < |focus| && focus[m] == AxisOther;
          assert sels[..i][j] == sels[j];
          assert st.poly[j] == before.poly[j];
        } else {
          assert st.poly[i] == st.last.value.coeffs;
        }
      }
    }
  }

  /** A zone with an axis other than x or y fits nothing: it records the
      line of the last earlier zone with an x or y axis, and that fit's
      residual divided by its own number of points. */
  lemma OtherAxisReusesLine(sels: seq<Option<seq<Point>>>, focus: seq<Axis>, solver: Solver, i: nat)
    requires i < |sels| && i < |focus| && focus[i] == AxisOther
    requires FitZones(sels, focus, solver).Ok?
    ensures sels[i].Some? && |sels[i].value| > 0
    ensures var st := FitZones(sels, focus, solver).value;
            exists j :: 0 <= j < i && focus[j] != AxisOther && sels[j].Some? &&
                        (forall m :: j < m < i ==> focus[m] == AxisOther) &&
                        var f := SolverFit(sels[j].value, focus[j], solver);
                        st.poly[j] == f.coeffs && st.poly[i] == f.coeffs &&
                        st.residuals[i] == PerPoint(f.residual, |sels[i].value|)
  {
    FitZonesPrefix(sels, focus, solver, i + 1);
    FitZonesPrefix(sels, focus, solver, i);
    FitZonesStep(sels, focus, solver, i);
    var before := FitZones(sels[..i], focus, solver).value;
    var after := FitZones(sels[..i + 1], focus, solver).value;
    var st := FitZones(sels, focus, solver).value;
    StepZoneOk(sels[i], i, focus, solver, before);
    FitZonesLast(sels[..i], focus, solver);
    var j :| 0 <= j < i && j < |focus| && focus[j] != AxisOther && sels[..i][j].Some? &&
             before.last.value == SolverFit(sels[..i][j].value, focus[j], solver) &&
             before.poly[j] == before.last.value.coeffs &&
             forall m :: j < m < i ==> m < |focus| && focus[m] == AxisOther;
    assert sels[..i][j] == sels[j];
    var f := SolverFit(sels[j].value, focus[j], solver);
    assert st.poly[i] == after.poly[i] == f.coeffs;
    assert st.residuals[i] == after.residuals[i] == PerPoint(f.residual, |sels[i].value|);
    assert st.poly[j] == before.poly[j];
  }

  /** A frame's scattering is defined exactly when every zone reported a
      residual, and is then the square root of their mean. */
  lemma FrameScattering(points: seq<Option<Point>>, angles: seq<real>, zones: seq<seq<real>>,
                        focus: seq<Axis>, solver: Solver)
    requires |points| == |angles|
    requires FrameFit(points, angles, zones, focus, solver).Ok?
    ensures FitZones(Selections(points, angles, zones), focus, solver).Ok?
    ensures var st := FitZones(Selections(points, angles, zones), focus, solver).value;
            var f := FrameFit(points, angles, zones, focus, solver).value;
            f.lines == st.poly &&
            (f.scattering.Some? <==> forall i :: 0 <= i < |zones| ==> st.residuals[i].Some?) &&
            (f.scattering.Some? ==> f.scattering.value == solver.sqrt(SumOpt(st.residuals).value / |zones| as real))
  {
    var st := FitZones(Selections(points, angles, zones), focus, solver).value;
    SumOptDefined(st.residuals);
  }

  /** fit_line: the zone loop, with the selection loop of each zone. */
  method FitLine(points: seq<Option<Point>>, angles: seq<real>, zones: seq<seq<real>>,
                 focus: seq<Axis>, solver: Solver) returns (r: Result<Frame>)
    requires |points| == |angles|
    ensures r == FrameFit(points, angles, zones, focus, solver)
  {
    ghost var sels := Selections(points, angles, zones);
    var residuals: seq<Option<real>> := [];
    var poly: seq<Line> := [];
    var last: Option<Fit> := None;
    var i := 0;
    while i < |zones|
      invariant 0 <= i <= |zones|
      invariant FitZones(sels[..i], focus, solver) == Ok(FitState(residuals, poly, last))
    {
      FitZonesStep(sels, focus, solver, i);
      SelectionsAt(points, angles, zones, i);
      ghost var next := StepZone(sels[i], i, focus, solver, FitState(residuals, poly, last));
      var index := SelectZone(angles, zones[i]);
      if index.None? {
        assert next == Err(OddBoundaryList(i));
        FitZonesStopsAt(sels, focus, solver, i + 1);
        return Err(OddBoundaryList(i));
      }
      ZoneIndicesBound(angles, zones[i]);
      var fitPoints := DropInvalid(Gather(points, index.value));
      assert sels[i] == Some(fitPoints);
      if i >= |focus| {
        assert next == Err(MissingAxis(i));
        FitZonesStopsAt(sels, focus, solver, i + 1);
        return Err(MissingAxis(i));
      }
      var fit: Fit;
      match focus[i] {
        case AxisX =>
          if fitPoints == [] {
            assert next == Err(EmptyFit(i));
            FitZonesStopsAt(sels, focus, solver, i + 1);
            return Err(EmptyFit(i));
          }
          fit := SolverFit(fitPoints, AxisX, solver);
          last := Some(fit);
        case AxisY =>
          if fitPoints == [] {
            assert next == Err(EmptyFit(i));
            FitZonesStopsAt(sels, focus, solver, i + 1);
            return Err(EmptyFit(i));
          }
          fit := SolverFit(fitPoints, AxisY, solver);
          last := Some(fit);
        case AxisOther =>
          if last.None? {
            assert next == Err(UnboundFit(i));
            FitZonesStopsAt(sels, focus, solver, i + 1);
            return Err(UnboundFit(i));
          }
          if fitPoints == [] {
            assert next == Err(EmptyFit(i));
            FitZonesStopsAt(sels, focus, solver, i + 1);
            return Err(EmptyFit(i));
          }
          fit := last.value;
      }
      residuals := residuals + [PerPoint(fit.residual, |fitPoints|)];
      poly := poly + [fit.coeffs];
      assert next == Ok(FitState(residuals, poly, last));
      i := i + 1;
    }
    assert sels[..i] == sels;
    if |residuals| == 0 {
      return Err(NoZones);
    }
    var mean := MeanOpt(residuals);
    var scattering := match mean case None => None case Some(m) => Some(solver.sqrt(m));
    return Ok(Frame(scattering, poly));
  }
}
