/** Conversion of a recording's flat sequence of range readings into
    Cartesian points, one per reading, using the rotated angular layout. */
module ScanConversion {
  import opened LidarTypes
  import opened AngleLayout

  /** math.pi as Python prints it. */
  const Pi: real := 3.141592653589793

  /** The trigonometric routines the conversion calls, on radians. */
  datatype Trig = Trig(cos: real -> real, sin: real -> real)

  /** cos^2 + sin^2 = 1 everywhere. */
  ghost predicate Pythagorean(trig: Trig)
  {
    forall t :: trig.cos(t) * trig.cos(t) + trig.sin(t) * trig.sin(t) == 1.0
  }

  function Radians(degrees: real): real
  {
    degrees * Pi / 180.0
  }

  /** IEEE comparison "d > 0.0": true for +inf, false for -inf and NaN. */
  predicate GreaterThanZero(d: Reading)
  {
    match d
    case Range(v) => v > 0.0
    case PosInf => true
    case NegInf => false
    case NaN => false
  }

  /** The point one reading gives at a bearing (degrees): a reading that is
      an infinity or not above zero gives no point. */
  function ToPoint(d: Reading, angle: real, trig: Trig): Option<Point>
  {
    if d != PosInf && d != NegInf && GreaterThanZero(d) then
      Some(Point(trig.cos(Radians(angle)) * d.meters, trig.sin(Radians(angle)) * d.meters))
    else
      None
  }

  /** No point is given for exactly the readings +inf, -inf, NaN and those
      not above zero; every other reading gives the point at distance d
      along the bearing converted to radians. */
  lemma ToPointCases(d: Reading, angle: real, trig: Trig)
    ensures ToPoint(d, angle, trig).None? <==>
      d == PosInf || d == NegInf || d == NaN || (d.Range? && d.meters <= 0.0)
    ensures ToPoint(d, angle, trig).Some? ==>
      ToPoint(d, angle, trig).value.x == trig.cos(Radians(angle)) * d.meters &&
      ToPoint(d, angle, trig).value.y == trig.sin(Radians(angle)) * d.meters
  {
  }

  /** A valid point lies on the circle whose radius is the range reading. */
  lemma PointOnCircle(d: Reading, angle: real, trig: Trig)
    requires Pythagorean(trig)
    ensures ToPoint(d, angle, trig).Some? ==>
      var p := ToPoint(d, angle, trig).value;
      p.x * p.x + p.y * p.y == d.meters * d.meters
  {
    if ToPoint(d, angle, trig).Some? {
      var p := ToPoint(d, angle, trig).value;
      var c, s, m := trig.cos(Radians(angle)), trig.sin(Radians(angle)), d.meters;
      assert c * c + s * s == 1.0;
      calc {
        p.x * p.x + p.y * p.y;
        (c * m) * (c * m) + (s * m) * (s * m);
        (c * c + s * s) * (m * m);
        m * m;
      }
    }
  }

  /** A point that is given is never the origin: None is the only stand-in
      for a reading without a return. */
  lemma ValidPointNotOrigin(d: Reading, angle: real, trig: Trig)
    requires Pythagorean(trig)
    ensures ToPoint(d, angle, trig) != Some(Point(0.0, 0.0))
  {
    if ToPoint(d, angle, trig).Some? {
      PointOnCircle(d, angle, trig);
      assert d.meters * d.meters > 0.0;
    }
  }

  /** What the conversion returns: the points of all messages back to back,
      the rotated layout, and the message count. */
  datatype Scan = Scan(points: seq<Option<Point>>, angles: seq<real>, messages: nat)

  /** Converts the readings of `messages` scans of n rays each. Reading i is
      taken at the bearing of layout index i mod n, through an index counter
      that wraps to zero after each scan. */
  method ScanToPoints(ranges: seq<Reading>, messages: nat, n: nat, rotation: real, trig: Trig)
    returns (r: Result<Scan>)
    requires |ranges| == messages * n
    ensures r.Err? <==> n == 0
    ensures r.Err? ==> r.error == ZeroRays
    ensures r.Ok? ==> r.value.angles == RotatedLayout(n, rotation) && r.value.messages == messages
    ensures r.Ok? ==> |r.value.points| == messages * n
    ensures r.Ok? ==> forall i :: 0 <= i < |r.value.points| ==>
      r.value.points[i] == ToPoint(ranges[i], r.value.angles[i % n], trig)
  {
    if n == 0 {
      return Err(ZeroRays);
    }
    var angles := RotatedLayout(n, rotation);
    var points := new Option<Point>[|ranges|](_ => None);
    var indexCounter := 0;
    var i := 0;
    while i < points.Length
      invariant 0 <= i <= points.Length
      invariant indexCounter <= n
      invariant indexCounter < n ==> indexCounter == i % n
      invariant indexCounter == n ==> i % n == 0
      invariant forall j :: 0 <= j < i ==> points[j] == ToPoint(ranges[j], angles[j % n], trig)
    {
      if indexCounter >= n {
        indexCounter := 0;
      }
      assert indexCounter == i % n;
      points[i] := ToPoint(ranges[i], angles[indexCounter], trig);
      ModStep(i, n);
      indexCounter := indexCounter + 1;
      i := i + 1;
    }
    assert points.Length == messages * n;
    return Ok(Scan(points[..], angles, messages));
  }

  /** How i mod n moves when i grows by one. */
  lemma ModStep(i: nat, n: nat)
    requires n > 0
    ensures i % n + 1 < n ==> (i + 1) % n == i % n + 1
    ensures i % n + 1 == n ==> (i + 1) % n == 0
  {
    DivMod(i, n);
    if i % n + 1 < n {
      ModOf(i + 1, n, i / n, i % n + 1);
    } else {
      ModOf(i + 1, n, i / n + 1, 0);
    }
  }
}
