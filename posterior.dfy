/** The two model posteriors: a line with optional intrinsic scatter and an
    oriented 2D Gaussian. What is modelled is the order of the checks and the
    dispatch on the scatter mode; the likelihood value itself (tangents,
    powers of ten, Gaussian log-densities) is a caller-supplied function. */
module Posterior {
  import opened Basics
  import opened Prior

  datatype Point = Point(x: real, y: real)

  /** A 2x2 matrix [[a, b], [c, d]]. */
  datatype Mat2 = Mat2(a: real, b: real, c: real, d: real)

  /** The `cov` argument: absent, one 2x2 matrix shared by every point, or a
      stack of 2x2 matrices (one per point). */
  datatype Cov = NoCov | Shared(m: Mat2) | Stack(ms: seq<Mat2>)

  predicate ZeroMat(m: Mat2) { m.a == 0.0 && m.b == 0.0 && m.c == 0.0 && m.d == 0.0 }

  /** numpy's `np.all(cov == 0)`: every entry is zero (vacuously so for an
      empty stack). */
  predicate AllZero(cov: Cov)
    requires !cov.NoCov?
  {
    match cov
    case Shared(m) => ZeroMat(m)
    case Stack(ms) => forall i :: 0 <= i < |ms| ==> ZeroMat(ms[i])
  }

  /** The intrinsic-scatter term of the line model, as chosen by the mode. */
  datatype Scatter = NoScatter | Vertical(logS: real) | Perpendicular(logS: real)

  /** The unpacked parameters of the line model: inclination, intercept and
      the scatter term. */
  datatype LineParams = LineParams(incl: real, inter: real, scatter: Scatter)

  /** The unpacked parameters of the 2D Gaussian: centre, log10 of the major
      and minor axis scatter, and position angle. */
  datatype GaussParams = GaussParams(x0: real, y0: real, logSMaj: real, logSMin: real, pa: real)

  /** The log-likelihood sums, left uninterpreted. */
  type LineLike = (LineParams, seq<Point>, Cov) -> Ext
  type GaussLike = (GaussParams, seq<Point>, Cov) -> Ext

  const ScatterModes: set<string> := {"none", "vert", "perp"}

  /** How many parameters the line model takes in a given scatter mode. */
  function LineArity(mode: string): nat {
    if mode == "none" then 2 else 3
  }

  /** The mode dispatch of the line posterior, once data and covariance are
      known to be present: mode check, the all-zero check for mode none, and
      the unpacking of two or three parameters. */
  function LineSetup(params: seq<real>, cov: Cov, mode: string): (r: Result<LineParams>)
    requires !cov.NoCov?
    ensures mode !in ScatterModes ==> r == Err(InvalidScatterMode)
    ensures mode == "none" && AllZero(cov) ==> r == Err(UnderdeterminedVariance)
    ensures r.Ok? <==> mode in ScatterModes && !(mode == "none" && AllZero(cov)) && |params| == LineArity(mode)
    ensures r.Ok? ==> r.value.incl == params[0] && r.value.inter == params[1]
    ensures r.Ok? ==> (r.value.scatter.NoScatter? <==> mode == "none")
    ensures r.Ok? ==> (r.value.scatter.Perpendicular? <==> mode == "perp")
    ensures r.Ok? && mode != "none" ==> r.value.scatter.logS == params[2]
  {
    if mode == "none" then
      if AllZero(cov) then Err(UnderdeterminedVariance)
      else if |params| != 2 then Err(ParamArity(2, |params|))
      else Ok(LineParams(params[0], params[1], NoScatter))
    else if mode == "vert" || mode == "perp" then
      if |params| != 3 then Err(ParamArity(3, |params|))
      else if mode == "vert" then Ok(LineParams(params[0], params[1], Vertical(params[2])))
      else Ok(LineParams(params[0], params[1], Perpendicular(params[2])))
    else Err(InvalidScatterMode)
  }

  /** The log-posterior of the line model. The prior comes first and a
      non-finite prior gives minus infinity whatever the other arguments;
      only then are missing data, a missing covariance and the scatter mode
      checked; a successful value is the prior plus the likelihood. */
  function LnPostLine(params: seq<real>, data: Option<seq<Point>>, cov: Cov, mode: string,
                      prior: PriorFn, like: LineLike): (r: Result<Ext>)
    ensures !IsFinite(EvalPrior(prior, params)) ==> r == Ok(NegInf)
    ensures IsFinite(EvalPrior(prior, params)) && data.None? ==> r == Err(MissingData)
    ensures IsFinite(EvalPrior(prior, params)) && data.Some? && cov.NoCov? ==> r == Err(MissingCov)
    ensures IsFinite(EvalPrior(prior, params)) && data.Some? && !cov.NoCov? ==>
              (LineSetup(params, cov, mode).Err? ==> r == Err(LineSetup(params, cov, mode).error))
    ensures r.Ok? && IsFinite(EvalPrior(prior, params)) ==>
              data.Some? && !cov.NoCov? && mode in ScatterModes && |params| == LineArity(mode) &&
              r.value == Add(EvalPrior(prior, params), like(LineSetup(params, cov, mode).value, data.value, cov))
    ensures IsFinite(EvalPrior(prior, params)) && data.Some? && !cov.NoCov? && LineSetup(params, cov, mode).Ok? ==>
              r == Ok(Add(EvalPrior(prior, params), like(LineSetup(params, cov, mode).value, data.value, cov)))
  {
    var lnpr := EvalPrior(prior, params);
    if !IsFinite(lnpr) then Ok(NegInf)
    else if data.None? then Err(MissingData)
    else if cov.NoCov? then Err(MissingCov)
    else
      match LineSetup(params, cov, mode)
      case Err(e) => Err(e)
      case Ok(lp) => Ok(Add(lnpr, like(lp, data.value, cov)))
  }

  /** The log-posterior of the 2D Gaussian model: the same prior short cut
      and missing-data check as the line model, then exactly five
      parameters. */
  function LnPostGauss2d(params: seq<real>, data: Option<seq<Point>>, cov: Cov,
                         prior: PriorFn, like: GaussLike): (r: Result<Ext>)
    ensures !IsFinite(EvalPrior(prior, params)) ==> r == Ok(NegInf)
    ensures IsFinite(EvalPrior(prior, params)) && data.None? ==> r == Err(MissingData)
    ensures IsFinite(EvalPrior(prior, params)) && data.Some? && cov.NoCov? ==> r == Err(MissingCov)
    ensures IsFinite(EvalPrior(prior, params)) && data.Some? && !cov.NoCov? && |params| != 5 ==>
              r == Err(ParamArity(5, |params|))
    ensures r.Ok? && IsFinite(EvalPrior(prior, params)) ==>
              data.Some? && !cov.NoCov? && |params| == 5 &&
              r.value == Add(EvalPrior(prior, params),
                             like(GaussParams(params[0], params[1], params[2], params[3], params[4]), data.value, cov))
    ensures IsFinite(EvalPrior(prior, params)) && data.Some? && !cov.NoCov? && |params| == 5 ==>
              r == Ok(Add(EvalPrior(prior, params),
                          like(GaussParams(params[0], params[1], params[2], params[3], params[4]), data.value, cov)))
  {
    var lnpr := EvalPrior(prior, params);
    if !IsFinite(lnpr) then Ok(NegInf)
    else if data.None? then Err(MissingData)
    else if cov.NoCov? then Err(MissingCov)
    else if |params| != 5 then Err(ParamArity(5, |params|))
    else Ok(Add(lnpr, like(GaussParams(params[0], params[1], params[2], params[3], params[4]), data.value, cov)))
  }

  /** With the flat prior, parameters outside their bounds make both
      posteriors return minus infinity without raising, even with no data,
      no covariance or an unknown scatter mode. */
  lemma OutOfBoundsNeverRaises(params: seq<real>, bounds: seq<Bound>, data: Option<seq<Point>>, cov: Cov,
                               mode: string, lineLike: LineLike, gaussLike: GaussLike)
    requires exists i :: 0 <= i < |params| && i < |bounds| && !Inside(params[i], bounds[i])
    ensures LnPostLine(params, data, cov, mode, Flat(bounds), lineLike) == Ok(NegInf)
    ensures LnPostGauss2d(params, data, cov, Flat(bounds), gaussLike) == Ok(NegInf)
  {
  }

  /** A finite line posterior is only ever produced for parameters inside
      their flat-prior bounds, with the arity the scatter mode demands. */
  lemma FiniteLineIsValid(params: seq<real>, bounds: seq<Bound>, data: Option<seq<Point>>, cov: Cov,
                          mode: string, like: LineLike)
    requires LnPostLine(params, data, cov, mode, Flat(bounds), like).Ok?
    requires IsFinite(LnPostLine(params, data, cov, mode, Flat(bounds), like).value)
    ensures WithinBounds(params, bounds)
    ensures mode in ScatterModes && |params| == LineArity(mode)
    ensures mode == "none" ==> !AllZero(cov)
  {
  }

  /** Conversely, parameters inside their flat-prior bounds, data and a
      covariance, a known scatter mode with its arity (and a non-zero
      covariance in mode none) and a finite likelihood give a finite line
      posterior, equal to the likelihood since the flat prior is 0. */
  lemma ValidLineIsFinite(params: seq<real>, bounds: seq<Bound>, data: seq<Point>, cov: Cov,
                          mode: string, like: LineLike)
    requires WithinBounds(params, bounds)
    requires !cov.NoCov? && mode in ScatterModes && |params| == LineArity(mode)
    requires mode == "none" ==> !AllZero(cov)
    requires IsFinite(like(LineSetup(params, cov, mode).value, data, cov))
    ensures LnPostLine(params, Some(data), cov, mode, Flat(bounds), like)
              == Ok(like(LineSetup(params, cov, mode).value, data, cov))
  {
    LnPriorFlatCharacterized(params, bounds);
    assert EvalPrior(Flat(bounds), params) == Fin(0.0);
  }

  /** A finite Gaussian posterior is only produced for parameters inside
      their bounds, exactly five of them, with data and a covariance. */
  lemma FiniteGaussIsValid(params: seq<real>, bounds: seq<Bound>, data: Option<seq<Point>>, cov: Cov,
                           like: GaussLike)
    requires LnPostGauss2d(params, data, cov, Flat(bounds), like).Ok?
    requires IsFinite(LnPostGauss2d(params, data, cov, Flat(bounds), like).value)
    ensures WithinBounds(params, bounds)
    ensures |params| == 5 && data.Some? && !cov.NoCov?
  {
  }

  /** Conversely, five parameters inside their bounds, data, a covariance
      and a finite likelihood give a finite Gaussian posterior, equal to the
      likelihood. */
  lemma ValidGaussIsFinite(params: seq<real>, bounds: seq<Bound>, data: seq<Point>, cov: Cov, like: GaussLike)
    requires WithinBounds(params, bounds)
    requires !cov.NoCov? && |params| == 5
    requires IsFinite(like(GaussParams(params[0], params[1], params[2], params[3], params[4]), data, cov))
    ensures LnPostGauss2d(params, Some(data), cov, Flat(bounds), like)
              == Ok(like(GaussParams(params[0], params[1], params[2], params[3], params[4]), data, cov))
  {
    LnPriorFlatCharacterized(params, bounds);
    assert EvalPrior(Flat(bounds), params) == Fin(0.0);
  }
}
