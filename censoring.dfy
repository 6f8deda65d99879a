/** The censoring adapter: wraps a 2D posterior and renormalises it for an
    observation window [xmin, xmax] x [ymin(x), ymax(x)]. The double
    integral of the wrapped model's density over the window is a
    caller-supplied function of the covariance handed to the integrand
    (parameters, keyword arguments and window are fixed during one call),
    and so is the natural logarithm. */
module Censoring {
  import opened Basics
  import opened Posterior

  /** A y-limit of the window: a constant, or a function of x. */
  datatype YBound = Const(c: real) | OfX(f: real -> real)

  function EvalY(b: YBound, x: real): real {
    match b
    case Const(c) => c
    case OfX(f) => f(x)
  }

  datatype Window = Window(xmin: real, xmax: real, ymin: YBound, ymax: YBound)

  /** A point lies in the closed window; its edges belong to it. */
  predicate InWindow(p: Point, w: Window) {
    w.xmin <= p.x <= w.xmax && EvalY(w.ymin, p.x) <= p.y <= EvalY(w.ymax, p.x)
  }

  /** The vectorised bounds check: no point lies outside the window. */
  predicate AllInWindow(data: seq<Point>, w: Window) {
    forall i :: 0 <= i < |data| ==> InWindow(data[i], w)
  }

  /** A posterior the adapter can wrap (keyword arguments are part of the
      closure). */
  type Wrapped = (seq<real>, Option<seq<Point>>, Cov) -> Result<Ext>

  /** numpy's `cov.size`, for a covariance that is present. */
  function CovSize(cov: Cov): nat
    requires !cov.NoCov?
  {
    match cov
    case Shared(_) => 4
    case Stack(ms) => 4 * |ms|
  }

  /** The logs subtracted one after another by the per-point branch: the
      i-th is the log of the integral taken with the i-th matrix. */
  function PointLogs(ms: seq<Mat2>, integral: Cov -> real, ln: real -> real): (r: seq<Ext>)
    ensures |r| == |ms|
    ensures forall i :: 0 <= i < |ms| ==> r[i] == NpLog(ln, integral(Shared(ms[i])))
  {
    seq(|ms|, i requires 0 <= i < |ms| => NpLog(ln, integral(Shared(ms[i]))))
  }

  /** `x` with each element of `logs` subtracted in turn. */
  function SubtractEach(x: Ext, logs: seq<Ext>): Ext {
    if |logs| == 0 then x else Sub(SubtractEach(x, logs[..|logs| - 1]), logs[|logs| - 1])
  }

  function Repeat(l: Ext, n: nat): (r: seq<Ext>)
    ensures |r| == n && forall i :: 0 <= i < n ==> r[i] == l
  {
    seq(n, _ => l)
  }

  function SumFin(logs: seq<Ext>): real
    requires forall i :: 0 <= i < |logs| ==> IsFinite(logs[i])
  {
    if |logs| == 0 then 0.0
    else
      assert IsFinite(logs[|logs| - 1]);
      SumFin(logs[..|logs| - 1]) + logs[|logs| - 1].v
  }

  /** Subtracting the same log n >= 1 times is subtracting n times that log
      (in exact arithmetic, infinities and NaN included): the per-point
      branch with every covariance equal agrees with the shared branch. */
  lemma {:induction false} SubtractRepeated(x: Ext, l: Ext, n: nat)
    requires n >= 1
    ensures SubtractEach(x, Repeat(l, n)) == Sub(x, Scale(n, l))
  {
    if n == 1 {
      assert Repeat(l, 1)[..0] == [];
    } else {
      assert Repeat(l, n)[..n - 1] == Repeat(l, n - 1);
      SubtractRepeated(x, l, n - 1);
    }
  }

  /** With finite values throughout, the per-point branch subtracts the sum
      of the logs. */
  lemma {:induction false} SubtractEachFinite(x: real, logs: seq<Ext>)
    requires forall i :: 0 <= i < |logs| ==> IsFinite(logs[i])
    ensures SubtractEach(Fin(x), logs) == Fin(x - SumFin(logs))
  {
    if |logs| > 0 {
      SubtractEachFinite(x, logs[..|logs| - 1]);
    }
  }

  /** With no point at all, the shared branch still subtracts 0 * log; that
      is NaN when the integral is zero, while an empty loop leaves the value
      alone. */
  lemma NoPointsZeroIntegral(x: real, ln: real -> real)
    ensures Sub(Fin(x), Scale(0, NpLog(ln, 0.0))) == NaN
    ensures SubtractEach(Fin(x), []) == Fin(x)
  {
  }

  /** The per-point branch: for each of the first `npoint` matrices of the
      stack, one integral with that matrix, whose log is subtracted from the
      running value. A stack shorter than the data raises an index error
      once it runs out. */
  method SubtractPerPoint(lnpost: Ext, ms: seq<Mat2>, npoint: nat, integral: Cov -> real, ln: real -> real)
    returns (r: Result<Ext>, integrals: seq<Cov>)
    ensures npoint <= |ms| ==> r == Ok(SubtractEach(lnpost, PointLogs(ms[..npoint], integral, ln)))
    ensures npoint > |ms| ==> r == Err(CovIndex(|ms|))
    ensures |integrals| == if npoint <= |ms| then npoint else |ms|
    ensures forall i :: 0 <= i < |integrals| ==> integrals[i] == Shared(ms[i])
  {
    var acc := lnpost;
    integrals := [];
    for ipoint := 0 to npoint
      invariant ipoint <= |ms|
      invariant |integrals| == ipoint
      invariant forall i :: 0 <= i < ipoint ==> integrals[i] == Shared(ms[i])
      invariant acc == SubtractEach(lnpost, PointLogs(ms[..ipoint], integral, ln))
    {
      if ipoint >= |ms| {
        return Err(CovIndex(ipoint)), integrals;
      }
      var m := ms[ipoint];
      integrals := integrals + [Shared(m)];
      assert PointLogs(ms[..ipoint + 1], integral, ln)[..ipoint] == PointLogs(ms[..ipoint], integral, ln);
      acc := Sub(acc, NpLog(ln, integral(Shared(m))));
    }
    r := Ok(acc);
  }

  /** The censoring adapter. It raises at once without a model to wrap;
      evaluates the wrapped posterior (whose errors propagate); returns that
      raw value unchanged when there is no window or the value is an
      infinity (NaN goes on); raises when a point lies outside the window;
      and otherwise subtracts the logs of the normalising integrals, which
      are reported in the order they are taken: one integral for a
      covariance of four entries, reused for every point, or one integral
      per point with that point's matrix. */
  method LnPost2dCensored(params: seq<real>, lnpostFunc: Option<Wrapped>, data: Option<seq<Point>>,
                          cov: Cov, window: Option<Window>, integral: Cov -> real, ln: real -> real)
    returns (r: Result<Ext>, integrals: seq<Cov>)
    ensures lnpostFunc.None? ==> r == Err(MissingModelFunction) && integrals == []
    ensures lnpostFunc.Some? && lnpostFunc.value(params, data, cov).Err? ==>
              r == lnpostFunc.value(params, data, cov) && integrals == []
    ensures lnpostFunc.Some? && lnpostFunc.value(params, data, cov).Ok? &&
            (window.None? || IsInf(lnpostFunc.value(params, data, cov).value)) ==>
              r == lnpostFunc.value(params, data, cov) && integrals == []
    ensures lnpostFunc.Some? && lnpostFunc.value(params, data, cov).Ok? &&
            window.Some? && !IsInf(lnpostFunc.value(params, data, cov).value) ==>
              var raw := lnpostFunc.value(params, data, cov).value;
              if data.None? then r == Err(MissingData) && integrals == []
              else if !AllInWindow(data.value, window.value) then r == Err(DataOutsideCensoringBounds) && integrals == []
              else if cov.NoCov? then r == Err(MissingCov) && integrals == []
              else if CovSize(cov) == 4 then
                integrals == [cov] && r == Ok(Sub(raw, Scale(|data.value|, NpLog(ln, integral(cov)))))
              else
                var n := |data.value|;
                (n <= |cov.ms| ==> integrals == seq(n, i requires 0 <= i < n => Shared(cov.ms[i])) &&
                                   r == Ok(SubtractEach(raw, PointLogs(cov.ms[..n], integral, ln)))) &&
                (n > |cov.ms| ==> integrals == seq(|cov.ms|, i requires 0 <= i < |cov.ms| => Shared(cov.ms[i])) &&
                                  r == Err(CovIndex(|cov.ms|)))
    ensures r.Ok? && lnpostFunc.Some? && window.Some? && !IsInf(r.value) ==>
              data.Some? && AllInWindow(data.value, window.value)
  {
    if lnpostFunc.None? {
      return Err(MissingModelFunction), [];
    }
    var raw := lnpostFunc.value(params, data, cov);
    if raw.Err? {
      return raw, [];
    }
    var lnpost := raw.value;
    if window.None? || IsInf(lnpost) {
      return raw, [];
    }
    if data.None? {
      return Err(MissingData), [];
    }
    var pts := data.value;
    if !AllInWindow(pts, window.value) {
      return Err(DataOutsideCensoringBounds), [];
    }
    var npoint := |pts|;
    if cov.NoCov? {
      return Err(MissingCov), [];
    }
    if CovSize(cov) == 4 {
      var lnInt := NpLog(ln, integral(cov));
      return Ok(Sub(lnpost, Scale(npoint, lnInt))), [cov];
    }
    r, integrals := SubtractPerPoint(lnpost, cov.ms, npoint, integral, ln);
  }

  /** When every per-point matrix is the same matrix m, the per-point
      branch gives exactly what the shared branch gives with m. */
  lemma PerPointMatchesShared(raw: Ext, ms: seq<Mat2>, m: Mat2, integral: Cov -> real, ln: real -> real)
    requires |ms| >= 1
    requires forall i :: 0 <= i < |ms| ==> ms[i] == m
    ensures SubtractEach(raw, PointLogs(ms, integral, ln)) == Sub(raw, Scale(|ms|, NpLog(ln, integral(Shared(m)))))
  {
    assert PointLogs(ms, integral, ln) == Repeat(NpLog(ln, integral(Shared(m))), |ms|);
    SubtractRepeated(raw, NpLog(ln, integral(Shared(m))), |ms|);
  }
}
