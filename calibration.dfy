/** The calibration measure: the distance between two fitted walls, read at
    one position along them, compared with a reference distance measured by
    hand, for each of the two lidars. */
module Calibration {
  import opened LidarTypes

  /** The value of a degree-1 polynomial at x (numpy's polyval). */
  function Polyval(l: Line, x: real): real
  {
    l.slope * x + l.intercept
  }

  function Abs(x: real): (r: real)
    ensures r >= 0.0 && (r == x || r == -x)
  {
    if x < 0.0 then -x else x
  }

  /** Python's list indexing: a negative index counts from the end, and an
      index outside the list raises an IndexError (None here). */
  function PyIndex<T>(xs: seq<T>, k: int): (r: Option<T>)
    ensures r.Some? <==> -|xs| <= k < |xs|
    ensures r.Some? ==> r.value in xs
  {
    if 0 <= k < |xs| then Some(xs[k])
    else if -|xs| <= k < 0 then Some(xs[|xs| + k])
    else None
  }

  /** A negative index names the same entry as that index plus the length. */
  lemma NegativeIndex<T>(xs: seq<T>, k: int)
    requires -|xs| <= k < 0
    ensures PyIndex(xs, k) == PyIndex(xs, k + |xs|)
  {
  }

  /** The distance between two lines, read at x. */
  function Gap(a: Line, b: Line, x: real): real
  {
    Abs(Polyval(a, x) - Polyval(b, x))
  }

  /** One lidar's error: the distance between the two indexed lines at the
      position, less the reference distance. The index list needs two
      entries, each naming a line. */
  function LineError(lines: seq<Line>, index: seq<int>, position: real, trueDistance: real): (r: Result<real>)
    ensures r.Ok? ==> r.value >= -trueDistance
    ensures r.Err? ==> r.error == IndexOutOfRange
  {
    if |index| < 2 then Err(IndexOutOfRange)
    else
      match (PyIndex(lines, index[0]), PyIndex(lines, index[1]))
      case (Some(a), Some(b)) => Ok(Gap(a, b, position) - trueDistance)
      case _ => Err(IndexOutOfRange)
  }

  /** offset_lidar_reference_measurement: the errors of both lidars' line
      sets for one reference measurement, the RPLIDAR's first. */
  function Offset(rp: seq<Line>, yd: seq<Line>, index: seq<int>, position: real, trueDistance: real)
    : (r: Result<(real, real)>)
    ensures r.Ok? ==> r.value.0 >= -trueDistance && r.value.1 >= -trueDistance
  {
    match LineError(rp, index, position, trueDistance)
    case Err(e) => Err(e)
    case Ok(errorRp) =>
      match LineError(yd, index, position, trueDistance)
      case Err(e) => Err(e)
      case Ok(errorYd) => Ok((errorRp, errorYd))
  }

  /** Both indices name a line of each lidar's set. */
  predicate IndicesValid(lines: seq<Line>, index: seq<int>)
  {
    |index| >= 2 && -|lines| <= index[0] < |lines| && -|lines| <= index[1] < |lines|
  }

  /** The measurement fails exactly when an index is missing or names no
      line, and then with an IndexError. */
  lemma OffsetDefined(rp: seq<Line>, yd: seq<Line>, index: seq<int>, position: real, trueDistance: real)
    ensures Offset(rp, yd, index, position, trueDistance).Ok? <==>
            IndicesValid(rp, index) && IndicesValid(yd, index)
    ensures Offset(rp, yd, index, position, trueDistance).Err? ==>
            Offset(rp, yd, index, position, trueDistance).error == IndexOutOfRange
  {
    if IndicesValid(rp, index) {
      assert PyIndex(rp, index[0]).Some? && PyIndex(rp, index[1]).Some?;
    }
    if IndicesValid(yd, index) {
      assert PyIndex(yd, index[0]).Some? && PyIndex(yd, index[1]).Some?;
    }
  }

  /** With valid indices, each error is the distance between the two lines'
      values at the position, less the reference distance. */
  lemma OffsetValue(rp: seq<Line>, yd: seq<Line>, index: seq<int>, position: real, trueDistance: real)
    requires IndicesValid(rp, index) && IndicesValid(yd, index)
    ensures var a, b := PyIndex(rp, index[0]).value, PyIndex(rp, index[1]).value;
            var c, d := PyIndex(yd, index[0]).value, PyIndex(yd, index[1]).value;
            Offset(rp, yd, index, position, trueDistance) ==
              Ok((Abs((a.slope * position + a.intercept) - (b.slope * position + b.intercept)) - trueDistance,
                  Abs((c.slope * position + c.intercept) - (d.slope * position + d.intercept)) - trueDistance))
  {
    var a, b := PyIndex(rp, index[0]).value, PyIndex(rp, index[1]).value;
    var c, d := PyIndex(yd, index[0]).value, PyIndex(yd, index[1]).value;
    assert LineError(rp, index, position, trueDistance) == Ok(Gap(a, b, position) - trueDistance);
    assert LineError(yd, index, position, trueDistance) == Ok(Gap(c, d, position) - trueDistance);
  }

  /** Which of the two lines comes first does not matter. */
  lemma OffsetSymmetric(rp: seq<Line>, yd: seq<Line>, i: int, j: int, position: real, trueDistance: real)
    ensures Offset(rp, yd, [i, j], position, trueDistance) == Offset(rp, yd, [j, i], position, trueDistance)
  {
    forall a: Line, b: Line ensures Gap(a, b, position) == Gap(b, a, position) {
      assert Polyval(a, position) - Polyval(b, position) == -(Polyval(b, position) - Polyval(a, position));
    }
  }

  /** A line measured against itself is at distance zero, so the error is
      the reference distance, negated. */
  lemma SameLine(rp: seq<Line>, yd: seq<Line>, i: int, position: real, trueDistance: real)
    requires -|rp| <= i < |rp| && -|yd| <= i < |yd|
    ensures Offset(rp, yd, [i, i], position, trueDistance) == Ok((-trueDistance, -trueDistance))
  {
    assert PyIndex(rp, i).Some? && PyIndex(yd, i).Some?;
  }

  /** Between parallel lines the distance is the same at every position. */
  lemma ParallelLines(rp: seq<Line>, yd: seq<Line>, index: seq<int>, p: real, q: real, trueDistance: real)
    requires IndicesValid(rp, index) && IndicesValid(yd, index)
    requires PyIndex(rp, index[0]).value.slope == PyIndex(rp, index[1]).value.slope
    requires PyIndex(yd, index[0]).value.slope == PyIndex(yd, index[1]).value.slope
    ensures Offset(rp, yd, index, p, trueDistance) == Offset(rp, yd, index, q, trueDistance)
  {
    var a, b := PyIndex(rp, index[0]).value, PyIndex(rp, index[1]).value;
    var c, d := PyIndex(yd, index[0]).value, PyIndex(yd, index[1]).value;
    assert Polyval(a, p) - Polyval(b, p) == a.intercept - b.intercept == Polyval(a, q) - Polyval(b, q);
    assert Polyval(c, p) - Polyval(d, p) == c.intercept - d.intercept == Polyval(c, q) - Polyval(d, q);
  }

  /** A lidar that places the walls exactly the reference distance apart
      has error zero: walls y = 2 and y = 5, 3 apart, read through a
      negative index. */
  lemma ExactWalls()
    ensures Offset([Line(0.0, 2.0), Line(0.0, 5.0)], [Line(0.0, 5.0), Line(0.0, 2.0)], [0, -1], 1.5, 3.0)
            == Ok((0.0, 0.0))
  {
  }
}
