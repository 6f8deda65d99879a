# emceefit: the discrete logic of a Bayesian fitting module, in Dafny

`sun_astro_tools/emceefit.py` fits astronomical models by MCMC. Most of the
file is floating-point statistics on top of scipy and emcee. Around that sits a
layer of checks, dispatch rules and counting loops. This project models that
layer and proves properties of it:

- **Flat prior** (`lnprior_flat`), in `prior.dfy`. It walks parameters and
  `(lower, upper)` bounds pairwise. It returns minus infinity at the first
  parameter not strictly inside its open interval, and 0 otherwise. The
  default-prior argument becomes a strategy value, `PriorFn = Flat(bounds) | Custom(f)`.
- **The two posteriors** (`lnpost_line`, `lnpost_gauss2d`), in
  `posterior.dfy`. The order of the checks is modelled exactly:
  1. The prior comes first; a non-finite prior gives minus infinity at once.
  2. Then missing data are rejected.
  3. Then a missing covariance is rejected.
  4. Then the scatter mode is checked; it fixes the parameter count.
  5. Mode `none` with an all-zero covariance is rejected.

  The likelihood sum is a caller-supplied function of the unpacked parameters,
  the data and the covariance.
- **Censoring adapter** (`lnpost2D_censored`), in `censoring.dfy`. It rejects a
  missing model function and propagates the wrapped posterior's errors. It
  passes the raw value through when there is no window or the value is an
  infinity; NaN goes on, as with `np.isinf`. It rejects data outside the closed
  window `[xmin, xmax] x [ymin(x), ymax(x)]`. Each y-limit is a tagged variant,
  `Const(c) | OfX(f)`. Finally it subtracts the logs of the normalising
  integrals. The adapter returns the list of covariances the integrals were
  taken with, in order:
  - a covariance of four entries gives one integral, whose log is subtracted
    `npoint` times;
  - a per-point stack gives one integral per point, with that point's matrix.

  The double integral is a caller-supplied function of that covariance. The
  parameters, keyword arguments and window are fixed during one call. The
  natural logarithm is also a caller-supplied function. numpy's log is
  modelled around it: NaN below 0, minus infinity at 0.
- **MCMC driver** (`modelfit_emcee`), in `driver.dfy`.
  1. It checks the posterior at the guess, which may itself raise.
  2. It picks the start point: the guess itself, or the optimiser's answer.
  3. It builds the sampler, which refuses an odd walker count or fewer
     walkers than twice the parameter count.
  4. It seeds the walkers around the start point.
  5. It runs the sampler in chunks of `ninfo` steps, then one remainder run.

  The ensemble sampler is a class. It records every `run_mcmc(start, k)`
  request and keeps a running step total. Like emcee 2's `run_mcmc`, it
  refuses a continuing request (`None`) before any run has given it starting
  positions.

Log-probabilities are IEEE-style extended reals, `Ext = Fin(v) | NegInf | PosInf | NaN`.
Their addition, subtraction and `n * x` follow IEEE rules for infinities and
NaN, so `0 * -inf` is NaN. Finite values are exact `real`s.

## Model

| member | source | states |
|---|---|---|
| `Prior.LnPriorFlat` | sun_astro_tools/emceefit.py:77-84 | the flat prior only ever returns 0 or minus infinity |
| `Prior.LnPriorFlatCharacterized` | sun_astro_tools/emceefit.py:81-84 | the prior is 0 iff every parameter paired with a bound satisfies lower < p < upper, and minus infinity iff some paired parameter does not |
| `Prior.EndpointRejected` | sun_astro_tools/emceefit.py:82-83 | a parameter equal to either end of its interval makes the prior minus infinity |
| `Prior.UnboundedTailIgnored` | sun_astro_tools/emceefit.py:81 | parameters beyond the last bound never affect the prior, because `zip` stops at the shorter sequence |
| `Prior.EvalPrior` | sun_astro_tools/emceefit.py:97-99 | with the default flat prior, the prior a posterior evaluates is finite exactly when the parameters are within their bounds |
| `Posterior.LineSetup` | sun_astro_tools/emceefit.py:109-121 | an unknown scatter mode is an error; mode none with an all-zero covariance is an error; success iff the mode is none/vert/perp, not (none and all-zero), and there are exactly 2 (none) or 3 (vert, perp) parameters; the third parameter becomes the log scatter and the mode picks its kind |
| `Posterior.LnPostLine` | sun_astro_tools/emceefit.py:97-129 | a non-finite prior gives minus infinity whatever the data, covariance or mode; only with a finite prior are missing data, a missing covariance, the mode and the arity errors; with a finite prior, data, a covariance and an accepted mode and arity the call succeeds, and every success is the prior plus the likelihood of the unpacked parameters |
| `Posterior.LnPostGauss2d` | sun_astro_tools/emceefit.py:137-161 | same prior short cut and missing-data and missing-covariance errors as the line model; then exactly five parameters, else an arity error; with a finite prior, data, a covariance and five parameters the call succeeds, and every success is the prior plus the likelihood at (x0, y0, log major, log minor, angle) |
| `Posterior.OutOfBoundsNeverRaises` | sun_astro_tools/emceefit.py:97-104 | with the flat prior and a parameter outside its bound, both posteriors return minus infinity and raise nothing, for every data, covariance and mode |
| `Posterior.FiniteLineIsValid` | sun_astro_tools/emceefit.py:99-121 | a finite line posterior implies parameters within bounds, a known mode with its arity, and a non-zero covariance in mode none |
| `Posterior.ValidLineIsFinite` | sun_astro_tools/emceefit.py:97-129 | conversely, parameters within bounds, data, a covariance, a known mode with its arity, a non-zero covariance in mode none and a finite likelihood give a finite line posterior equal to that likelihood |
| `Posterior.FiniteGaussIsValid` | sun_astro_tools/emceefit.py:137-161 | a finite Gaussian posterior implies parameters within bounds, exactly five of them, data and a covariance |
| `Posterior.ValidGaussIsFinite` | sun_astro_tools/emceefit.py:137-161 | conversely, five parameters within bounds, data, a covariance and a finite likelihood give a finite Gaussian posterior equal to that likelihood |
| `Basics.Add` | sun_astro_tools/emceefit.py:129 | the sum of two finite log-probabilities is their real sum; the sum is NaN exactly when an operand is NaN or the operands are opposite infinities |
| `Basics.Scale` | sun_astro_tools/emceefit.py:202 | `npoint * log` is NaN exactly when the log is NaN or npoint is 0 and the log infinite; for a finite log it is the real product |
| `Basics.Sub` | sun_astro_tools/emceefit.py:207 | subtracting finite log-probabilities is real subtraction |
| `Basics.NpLog` | sun_astro_tools/emceefit.py:202 | the log of an integral is NaN exactly below 0, minus infinity exactly at 0, and never plus infinity |
| `Censoring.SubtractPerPoint` | sun_astro_tools/emceefit.py:204-208 | the per-point loop takes exactly npoint integrals, the i-th with `cov[i]`, and returns the raw value with their logs subtracted in turn, the i-th subtracted log being the log of the integral taken with the i-th matrix; a stack shorter than the data raises an index error after one integral per matrix |
| `Censoring.LnPost2dCensored` | sun_astro_tools/emceefit.py:164-208 | a missing model function raises first; the wrapped posterior's errors propagate; no window or an infinite raw value gives the raw value with no integral; missing data or a point outside the closed window raises; a covariance of four entries gives exactly one integral with that covariance, its log subtracted npoint times; a stack gives the per-point result; a finite corrected value implies every point in the window |
| `Censoring.SubtractRepeated` | sun_astro_tools/emceefit.py:198-208 | subtracting one log n >= 1 times equals subtracting n times that log, infinities and NaN included |
| `Censoring.PerPointMatchesShared` | sun_astro_tools/emceefit.py:198-208 | with every per-point matrix equal to m, the per-point branch gives exactly what the shared branch gives with m |
| `Censoring.SubtractEachFinite` | sun_astro_tools/emceefit.py:204-208 | with finite values throughout, the per-point branch subtracts the sum of the logs |
| `Censoring.NoPointsZeroIntegral` | sun_astro_tools/emceefit.py:198-207 | with no data points and a zero integral, the shared branch gives NaN (0 times minus infinity), while the per-point loop leaves the value alone |
| `Driver.Sampler.constructor` | sun_astro_tools/emceefit.py:39-40 | a new sampler has no runs and a zero step total |
| `Driver.Sampler.RunMcmc` | sun_astro_tools/emceefit.py:50-52 | a request is accepted iff it brings starting positions or some run came before; an accepted request is appended to the log and adds its steps to the total; a refused one changes nothing |
| `Driver.FullChunksAt` | sun_astro_tools/emceefit.py:47-53 | of the full chunks, every one is ninfo steps long and only the first starts from the seeded positions |
| `Driver.FullChunksTotal` | sun_astro_tools/emceefit.py:47-53 | k full chunks add up to k * ninfo steps |
| `Driver.ScheduleTotal` | sun_astro_tools/emceefit.py:47-62 | the runs requested add up to exactly nstep steps, as written and corrected |
| `Driver.ScheduleShape` | sun_astro_tools/emceefit.py:47-62 | nstep / ninfo runs of ninfo steps, then one run of nstep % ninfo steps when that is non-zero; only the first full chunk gets the seeded positions, so no run gets them when nstep < ninfo |
| `Driver.ShortRunUnseeded` | sun_astro_tools/emceefit.py:48-62 | for 0 < nstep < ninfo the only request is a continuing run of nstep steps |
| `Driver.SeededScheduleShape` | sun_astro_tools/emceefit.py:47-62 | the corrected schedule equals the written one whenever a full chunk runs; below one chunk it is a single seeded run; only its first run is seeded |
| `Driver.Seed` | sun_astro_tools/emceefit.py:41-42 | there are nwalkers positions, each of nparam entries, walker i at start + dwalker * noise[i] |
| `Driver.RunFullChunks` | sun_astro_tools/emceefit.py:47-60 | the loop runs nstep / ninfo full chunks, the first seeded; it stops at nstep - nstep % ninfo steps; chunk k (from 1) reports steps (k-1)*ninfo+1 .. k*ninfo when verbose |
| `Driver.Fit` | sun_astro_tools/emceefit.py:17-69 | an error raised by the posterior at the guess propagates and a non-finite posterior there is an error, both before any optimiser or sampler call; the sampler's constructor refuses an odd walker count or one below twice the parameter count; the start point is the guess when minimisation is skipped; for 0 < nstep < ninfo the sampler refuses the run; otherwise the runs are the written schedule, the step total is nstep and there are nwalkers walkers |
| `Driver.FitSeeded` | sun_astro_tools/emceefit.py:17-69 | the corrected driver fails only on the guess (an error raised there, or a non-finite value) or on a walker count the sampler refuses; otherwise its runs are the corrected schedule totalling nstep and its first run starts from the seeded walkers |

## Findings

| source | as written | input that shows it | evidently intended | confidence | as-written member | corrected member |
|---|---|---|---|---|---|---|
| sun_astro_tools/emceefit.py:61-62 | the remainder run always continues (`run_mcmc(None, ...)`), even when no full chunk ran before it | nstep = 50, ninfo = 100: the only request is `run_mcmc(None, 50)`, which emcee 2 refuses because the sampler was never started; the seeded walker positions are never used | the remainder run starts from the seeded positions when it is the first run | medium, not executed | `Driver.ShortRunUnseeded` | `Driver.FitSeeded` |

`Driver.Fit` models the code as written and ends in `SamplerNotStarted` for
0 < nstep < ninfo. `Driver.FitSeeded` passes the positions to the remainder run
when `count == 0`. `Driver.SeededScheduleShape` proves that this changes
nothing when nstep >= ninfo.

## Left out

- Floating-point numerics are left out. This covers `tan`, `10**`, `sqrt`,
  `norm.logpdf`, the rotation matrix and `gaussNd_pdf`. The likelihoods are
  caller-supplied functions. `sun_astro_tools/stats.py` is not part of this
  model.
- Rounding and overflow are left out: finite log-probabilities are exact
  reals. Repeated float subtraction can differ from `npoint * log` in the last
  bits, while `Censoring.SubtractRepeated` holds exactly.
- `scipy.integrate.dblquad` is a caller-supplied function of the covariance.
  The integrand's own evaluation is not modelled, and neither is an error
  raised inside the quadrature. The error estimate it discards is not modelled.
- `scipy.optimize.minimize` is a caller-supplied function. It must return a
  vector of the guess's length.
- `np.random.randn` walker noise is a parameter of the driver.
- The `EnsembleSampler` internals are not modelled: the sampling itself, the
  chain and `flatchain`. The driver returns the sampler's run log and step
  total instead of the flattened chain. The constructor's posterior, keyword
  arguments and `threads` are not recorded.
- `print` output and `np.percentile` summaries are I/O. Only the step ranges
  of the chunk summaries are modelled. The final whole-run summary is left out.
- The `threads` parallelism is concurrency and is left out.
- `Driver.Fit`, `Driver.FitSeeded`, `Driver.RunFullChunks` require
  `ninfo > 0`, because with `ninfo = 0` the source's loop never ends.
- A `cov` of None in the posteriors is an error (`MissingCov`). The source's
  zero-matrix default is `np.zeros(2, 2)`, which passes 2 as a dtype and raises.
  So no default matrix is ever produced.
- `priorargs` is folded into the prior strategy, since the flat prior carries
  its own bounds. The source's default `lnprior=None` with `priorargs=()`
  calls `lnprior_flat(params)` without bounds and raises; that error is not
  modelled.
- Keyword arguments forwarded to the wrapped posterior are part of the
  wrapped function value.
- Shape errors beyond those named are not modelled: data that are not N x 2,
  and parameters that are not numbers. NaN coordinates are not modelled
  either, so NaN comparisons in the window check are left out.
- `Censoring.LnPost2dCensored`: data of None past the window guard is
  reported as `MissingData`. In the source it is an `AttributeError` at
  `data.shape` (sun_astro_tools/emceefit.py:182) when ymin is a constant, and
  a `TypeError` from indexing None (sun_astro_tools/emceefit.py:180) when ymin
  is callable.
- `Censoring.LnPost2dCensored`: a cov of None past the window check is
  reported as `MissingCov`. In the source it is an `AttributeError` at
  `cov.size` (sun_astro_tools/emceefit.py:199).
- Errors raised by the posterior inside the optimiser or inside the sampler's
  runs are not modelled: the optimiser is a total caller-supplied function and
  the sampler does not evaluate the posterior. Only the posterior's call at the
  guess may raise.
- The sampler's constructor checks only the walker count (even, and at least
  twice the parameter count), as emcee 2's `EnsembleSampler` does; its other
  argument checks are not modelled.
- Statistical claims are left out because they need real analysis of float
  formulas: perp versus vert at zero slope, and the major/minor axis symmetry.
