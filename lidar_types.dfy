/** Values shared by every stage of the lidar analysis: range readings,
    Cartesian points, fitted lines, the numeric collaborators the analysis
    calls (least squares, square root) and the ways an analysis run stops. */
module LidarTypes {

  datatype Option<T> = None | Some(value: T)

  datatype Result<T> = Ok(value: T) | Err(error: Failure)

  /** Each case is an exception the analysis raises. */
  datatype Failure =
    | ZeroRays                    // a division by the number of rays, which is zero
    | OddBoundaryList(zone: nat)  // a zone's boundary list has an unpaired last entry
    | MissingAxis(zone: nat)      // the axis list is shorter than the zone list
    | UnboundFit(zone: nat)       // an axis other than x or y before any fit was made
    | EmptyFit(zone: nat)         // a zone keeps no valid point to fit
    | NoZones                     // the mean over zone residuals has no zone
    | NoFrames                    // the mean over frames has no frame
    | IndexOutOfRange             // a line index names no fitted line

  /** One range reading of a scan, as an IEEE double: a finite value,
      an infinity, or not-a-number. */
  datatype Reading = Range(meters: real) | PosInf | NegInf | NaN

  /** A Cartesian point; a reading that gives none is recorded as None. */
  datatype Point = Point(x: real, y: real)

  /** The coefficients of a degree-1 polynomial, highest degree first. */
  datatype Line = Line(slope: real, intercept: real)

  /** What a least-squares fit reports: the coefficients and the sum of
      squared residuals, which the solver omits (an empty array) when the
      fit is exact by construction or rank deficient. */
  datatype Fit = Fit(coeffs: Line, residual: Option<real>)

  /** The independent axis declared for a zone: 'x', 'y' or any other text. */
  datatype Axis = AxisX | AxisY | AxisOther

  /** The numeric routines the analysis calls and does not define:
      a degree-1 least-squares fit of ys against xs, and the square root. */
  datatype Solver = Solver(polyfit: (seq<real>, seq<real>) -> Fit, sqrt: real -> real)
}
