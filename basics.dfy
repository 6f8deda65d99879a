/** Values shared by every part of the model: log-probabilities as IEEE-style
    extended reals, the error conditions the fitting code raises, and a
    Result type that carries either a value or one of those errors. */
module Basics {

  /** A double-precision log-probability, with rounding and overflow left
      out: a finite value, one of the two infinities, or not-a-number. */
  datatype Ext = Fin(v: real) | NegInf | PosInf | NaN

  /** numpy's isfinite. */
  predicate IsFinite(x: Ext) { x.Fin? }

  /** numpy's isinf: true of both infinities and false of NaN. */
  predicate IsInf(x: Ext) { x.NegInf? || x.PosInf? }

  /** IEEE addition: NaN absorbs, opposite infinities give NaN. */
  function Add(a: Ext, b: Ext): (r: Ext)
    ensures IsFinite(a) && IsFinite(b) ==> r == Fin(a.v + b.v)
    ensures r.NaN? <==> a.NaN? || b.NaN? || (a.PosInf? && b.NegInf?) || (a.NegInf? && b.PosInf?)
  {
    match (a, b)
    case (NaN, _) => NaN
    case (_, NaN) => NaN
    case (PosInf, NegInf) => NaN
    case (NegInf, PosInf) => NaN
    case (PosInf, _) => PosInf
    case (_, PosInf) => PosInf
    case (NegInf, _) => NegInf
    case (_, NegInf) => NegInf
    case (Fin(x), Fin(y)) => Fin(x + y)
  }

  function Neg(a: Ext): (r: Ext)
    ensures r.NaN? <==> a.NaN?
    ensures IsInf(r) <==> IsInf(a)
  {
    match a
    case Fin(x) => Fin(-x)
    case NegInf => PosInf
    case PosInf => NegInf
    case NaN => NaN
  }

  /** IEEE subtraction, a - b. */
  function Sub(a: Ext, b: Ext): (r: Ext)
    ensures IsFinite(a) && IsFinite(b) ==> r == Fin(a.v - b.v)
  {
    Add(a, Neg(b))
  }

  /** The product `n * a` of a Python integer count and a float:
      zero times an infinity is NaN. */
  function Scale(n: nat, a: Ext): (r: Ext)
    ensures r.NaN? <==> a.NaN? || (n == 0 && IsInf(a))
    ensures IsFinite(a) ==> r == Fin(n as real * a.v)
  {
    match a
    case Fin(x) => Fin(n as real * x)
    case NaN => NaN
    case _ => if n == 0 then NaN else a
  }

  /** numpy's log of a float: NaN below zero, minus infinity at zero, and
      otherwise the (uninterpreted) natural logarithm `ln`. */
  function NpLog(ln: real -> real, x: real): (r: Ext)
    ensures r.NaN? <==> x < 0.0
    ensures r.NegInf? <==> x == 0.0
    ensures !r.PosInf?
  {
    if x < 0.0 then NaN else if x == 0.0 then NegInf else Fin(ln(x))
  }

  /** The error conditions the fitting code raises. */
  datatype Error =
    | InvalidGuess                 // non-finite posterior at the starting guess
    | MissingData                  // a posterior or the censoring adapter given no data
    | MissingCov                   // no covariance: the zero-matrix default raises
    | InvalidScatterMode           // intrinsic-scatter flag outside none/vert/perp
    | UnderdeterminedVariance      // mode none with an all-zero covariance
    | ParamArity(expected: nat, got: nat)  // tuple unpacking of the parameters fails
    | MissingModelFunction         // the censoring adapter given no posterior to wrap
    | DataOutsideCensoringBounds   // a data point outside the observable region
    | CovIndex(index: nat)         // per-point covariance stack shorter than the data
    | SamplerNotStarted            // the sampler asked to continue before any run
    | WalkerCount                  // walker count odd or below twice the dimension

  datatype Result<T> = Ok(value: T) | Err(error: Error)

  /** Python's None-or-value arguments. */
  datatype Option<T> = None | Some(value: T)
}
