/** The MCMC driver: checks the starting guess, picks the start point (the
    optimiser's answer or the guess itself), seeds the walkers around it and
    advances the ensemble sampler in chunks of `ninfo` steps, with one final
    run for the remainder. The sampler is modelled by the log of the runs it
    is asked for and its running step total. */
module Driver {
  import opened Basics

  /** One position per walker, each a parameter vector. */
  type Walkers = seq<seq<real>>

  /** One `run_mcmc(start, steps)` request; `None` continues from where the
      previous run stopped. */
  datatype Run = Run(start: Option<Walkers>, steps: nat)

  /** The 1-based steps a progress summary is printed for. */
  datatype StepRange = StepRange(first: int, last: int)

  function TotalSteps(runs: seq<Run>): nat {
    if |runs| == 0 then 0 else TotalSteps(runs[..|runs| - 1]) + runs[|runs| - 1].steps
  }

  lemma {:induction false} TotalStepsAppend(a: seq<Run>, b: seq<Run>)
    ensures TotalSteps(a + b) == TotalSteps(a) + TotalSteps(b)
  {
    if |b| > 0 {
      assert (a + b)[..|a + b| - 1] == a + b[..|b| - 1];
      TotalStepsAppend(a, b[..|b| - 1]);
    } else {
      assert a + b == a;
    }
  }

  /** The ensemble sampler as the driver sees it. A run that continues
      (`None`) is refused until some run has supplied starting positions. */
  class Sampler {
    const nwalkers: nat
    const ndim: nat
    var runs: seq<Run>
    var iterations: nat

    ghost predicate Valid()
      reads this
    {
      iterations == TotalSteps(runs) && (runs != [] ==> runs[0].start.Some?)
    }

    constructor (nwalkers: nat, ndim: nat)
      ensures Valid()
      ensures this.nwalkers == nwalkers && this.ndim == ndim
      ensures runs == [] && iterations == 0
    {
      this.nwalkers := nwalkers;
      this.ndim := ndim;
      runs := [];
      iterations := 0;
    }

    method RunMcmc(pos: Option<Walkers>, n: nat) returns (ok: bool)
      requires Valid()
      modifies this
      ensures Valid()
      ensures ok <==> pos.Some? || old(runs) != []
      ensures runs == if ok then old(runs) + [Run(pos, n)] else old(runs)
      ensures iterations == old(iterations) + (if ok then n else 0)
    {
      ok := pos.Some? || runs != [];
      if ok {
        TotalStepsAppend(runs, [Run(pos, n)]);
        runs := runs + [Run(pos, n)];
        iterations := iterations + n;
      }
    }
  }

  /** The first k full chunks: the first one starts from the seeded walker
      positions, the others continue. */
  function FullChunks(k: nat, ninfo: nat, pos: Walkers): (r: seq<Run>)
    ensures |r| == k
  {
    if k == 0 then [] else FullChunks(k - 1, ninfo, pos) + [Run(if k == 1 then Some(pos) else None, ninfo)]
  }

  /** The runs the driver asks for, as written: nstep / ninfo full chunks,
      then a continuing run for a non-zero remainder. */
  function Schedule(nstep: nat, ninfo: nat, pos: Walkers): seq<Run>
    requires ninfo > 0
  {
    FullChunks(nstep / ninfo, ninfo, pos) + (if nstep % ninfo != 0 then [Run(None, nstep % ninfo)] else [])
  }

  /** The runs with the remainder run seeded when it is the only run. */
  function SeededSchedule(nstep: nat, ninfo: nat, pos: Walkers): seq<Run>
    requires ninfo > 0
  {
    FullChunks(nstep / ninfo, ninfo, pos)
      + (if nstep % ninfo != 0 then [Run(if nstep / ninfo == 0 then Some(pos) else None, nstep % ninfo)] else [])
  }

  /** The step ranges of the first k chunk summaries. */
  function ChunkRanges(k: nat, ninfo: nat): seq<StepRange> {
    seq(k, j => StepRange(j * ninfo + 1, (j + 1) * ninfo))
  }

  lemma {:induction false} FullChunksAt(k: nat, ninfo: nat, pos: Walkers)
    ensures forall i :: 0 <= i < k ==> FullChunks(k, ninfo, pos)[i] == Run(if i == 0 then Some(pos) else None, ninfo)
  {
    if k > 0 {
      FullChunksAt(k - 1, ninfo, pos);
      assert FullChunks(k, ninfo, pos)[..k - 1] == FullChunks(k - 1, ninfo, pos);
    }
  }

  lemma {:induction false} FullChunksTotal(k: nat, ninfo: nat, pos: Walkers)
    ensures TotalSteps(FullChunks(k, ninfo, pos)) == k * ninfo
  {
    if k > 0 {
      FullChunksTotal(k - 1, ninfo, pos);
      assert FullChunks(k, ninfo, pos)[..k - 1] == FullChunks(k - 1, ninfo, pos);
      MulSucc(k - 1, ninfo);
    }
  }

  lemma MulSucc(k: nat, d: nat)
    ensures (k + 1) * d == k * d + d
  {
  }

  /** No full chunk fits exactly when nstep < ninfo. */
  lemma QuotientZero(n: nat, d: nat)
    requires d > 0
    ensures n / d == 0 <==> n < d
  {
  }

  lemma TotalStepsSingle(run: Run)
    ensures TotalSteps([run]) == run.steps
  {
  }

  /** Both schedules add up to nstep steps. */
  lemma ScheduleTotal(nstep: nat, ninfo: nat, pos: Walkers)
    requires ninfo > 0
    ensures TotalSteps(Schedule(nstep, ninfo, pos)) == nstep
    ensures TotalSteps(SeededSchedule(nstep, ninfo, pos)) == nstep
  {
    var k := nstep / ninfo;
    var full := FullChunks(k, ninfo, pos);
    FullChunksTotal(k, ninfo, pos);
    assert k * ninfo + nstep % ninfo == nstep;
    if nstep % ninfo != 0 {
      var seeded := Run(if k == 0 then Some(pos) else None, nstep % ninfo);
      TotalStepsSingle(Run(None, nstep % ninfo));
      TotalStepsSingle(seeded);
      TotalStepsAppend(full, [Run(None, nstep % ninfo)]);
      TotalStepsAppend(full, [seeded]);
    } else {
      assert Schedule(nstep, ninfo, pos) == full;
      assert SeededSchedule(nstep, ninfo, pos) == full;
    }
  }

  /** The schedule as written: nstep / ninfo runs of ninfo steps and one
      remainder run when ninfo does not divide nstep; only the first full
      chunk gets the seeded positions, so no run does when nstep < ninfo. */
  lemma ScheduleShape(nstep: nat, ninfo: nat, pos: Walkers)
    requires ninfo > 0
    ensures |Schedule(nstep, ninfo, pos)| == nstep / ninfo + (if nstep % ninfo != 0 then 1 else 0)
    ensures forall i :: 0 <= i < nstep / ninfo ==> Schedule(nstep, ninfo, pos)[i].steps == ninfo
    ensures nstep % ninfo != 0 ==> Schedule(nstep, ninfo, pos)[nstep / ninfo] == Run(None, nstep % ninfo)
    ensures forall i :: 0 <= i < |Schedule(nstep, ninfo, pos)| ==>
              Schedule(nstep, ninfo, pos)[i].start == (if i == 0 && ninfo <= nstep then Some(pos) else None)
  {
    var k := nstep / ninfo;
    var s := Schedule(nstep, ninfo, pos);
    FullChunksAt(k, ninfo, pos);
    QuotientZero(nstep, ninfo);
    forall i | 0 <= i < |s|
      ensures s[i].start == (if i == 0 && ninfo <= nstep then Some(pos) else None)
    {
      if i < k {
        assert s[i] == FullChunks(k, ninfo, pos)[i];
      }
    }
  }

  /** The corrected schedule is the one as written whenever at least one
      full chunk runs, and otherwise its only run starts from the seeded
      positions; either way, only its first run is seeded. */
  lemma SeededScheduleShape(nstep: nat, ninfo: nat, pos: Walkers)
    requires ninfo > 0
    ensures ninfo <= nstep ==> SeededSchedule(nstep, ninfo, pos) == Schedule(nstep, ninfo, pos)
    ensures 0 < nstep < ninfo ==> SeededSchedule(nstep, ninfo, pos) == [Run(Some(pos), nstep)]
    ensures forall i :: 0 <= i < |SeededSchedule(nstep, ninfo, pos)| ==>
              SeededSchedule(nstep, ninfo, pos)[i].start == (if i == 0 then Some(pos) else None)
  {
    var k := nstep / ninfo;
    var s := SeededSchedule(nstep, ninfo, pos);
    FullChunksAt(k, ninfo, pos);
    QuotientZero(nstep, ninfo);
    forall i | 0 <= i < |s|
      ensures s[i].start == (if i == 0 then Some(pos) else None)
    {
      if i < k {
        assert s[i] == FullChunks(k, ninfo, pos)[i];
      }
    }
  }

  /** A run shorter than one chunk is, as written, a single continuing run:
      the sampler is asked to continue before it was ever started. */
  lemma ShortRunUnseeded(nstep: nat, ninfo: nat, pos: Walkers)
    requires 0 < nstep < ninfo
    ensures Schedule(nstep, ninfo, pos) == [Run(None, nstep)]
  {
  }

  /** numpy-free walker seeding: walker i sits at start + dwalker * noise[i],
      where the Gaussian noise is supplied by the caller. */
  function Seed(start: seq<real>, dwalker: real, noise: seq<seq<real>>): (pos: Walkers)
    requires forall i :: 0 <= i < |noise| ==> |noise[i]| == |start|
    ensures |pos| == |noise|
    ensures forall i :: 0 <= i < |pos| ==> |pos[i]| == |start|
    ensures forall i, j :: 0 <= i < |pos| && 0 <= j < |start| ==> pos[i][j] == start[j] + dwalker * noise[i][j]
  {
    seq(|noise|, i requires 0 <= i < |noise| =>
      seq(|start|, j requires 0 <= j < |start| => start[j] + dwalker * noise[i][j]))
  }

  /** The start point: the guess itself when minimisation is skipped, or the
      optimiser's answer from the guess. */
  function StartPoint(guess: seq<real>, skipMinimize: bool, minimize: seq<real> -> seq<real>): seq<real> {
    if skipMinimize then guess else minimize(guess)
  }

  /** What a finished fit leaves behind: the start point, the seeded walker
      positions, the runs the sampler was asked for, its step total and the
      step ranges of the chunk summaries. */
  datatype FitReport = FitReport(start: seq<real>, walkers: Walkers, runs: seq<Run>,
                                 steps: nat, summaries: seq<StepRange>)

  /** The chunk loop: while another full chunk fits, run ninfo steps (the
      first time from the seeded positions) and record its summary range. */
  method RunFullChunks(sampler: Sampler, pos: Walkers, nstep: nat, ninfo: nat, verbose: bool)
    returns (count: nat, summaries: seq<StepRange>)
    requires ninfo > 0
    requires sampler.Valid() && sampler.runs == []
    modifies sampler
    ensures sampler.Valid()
    ensures count == nstep - nstep % ninfo
    ensures count == 0 <==> nstep < ninfo
    ensures sampler.runs == [] <==> nstep < ninfo
    ensures sampler.runs == FullChunks(nstep / ninfo, ninfo, pos)
    ensures summaries == if verbose then ChunkRanges(nstep / ninfo, ninfo) else []
  {
    count := 0;
    summaries := [];
    ghost var k: nat := 0;
    while count + ninfo <= nstep
      invariant count == k * ninfo && count <= nstep
      invariant sampler.Valid() && sampler.runs == FullChunks(k, ninfo, pos)
      invariant summaries == if verbose then ChunkRanges(k, ninfo) else []
      decreases nstep - count
    {
      ChunkStep(k, ninfo);
      var start := if count == 0 then Some(pos) else None;
      assert FullChunks(k + 1, ninfo, pos) == sampler.runs + [Run(start, ninfo)];
      var ok := sampler.RunMcmc(start, ninfo);
      count := count + ninfo;
      k := k + 1;
      if verbose {
        summaries := summaries + [StepRange(count - ninfo + 1, count)];
      }
    }
    DivBracket(nstep, ninfo, k);
    QuotientZero(nstep, ninfo);
  }

  lemma MulMonotone(a: int, b: int, d: nat)
    requires a <= b
    ensures a * d <= b * d
  {
  }

  /** One more chunk: its count is ninfo further on, and it adds one
      summary range. */
  lemma ChunkStep(k: nat, ninfo: nat)
    requires ninfo > 0
    ensures (k + 1) * ninfo == k * ninfo + ninfo
    ensures k * ninfo == 0 <==> k == 0
    ensures ChunkRanges(k + 1, ninfo) == ChunkRanges(k, ninfo) + [StepRange(k * ninfo + 1, k * ninfo + ninfo)]
  {
  }

  /** k is the quotient of n by d when k * d <= n < (k + 1) * d. */
  lemma DivBracket(n: nat, d: nat, k: nat)
    requires d > 0 && k * d <= n < k * d + d
    ensures n / d == k && n % d == n - k * d
  {
    var q := n / d;
    assert n == q * d + n % d;
    if q < k {
      assert (q + 1) * d == q * d + d;
      MulMonotone(q + 1, k, d);
      assert false;
    } else if q > k {
      assert (k + 1) * d == k * d + d;
      MulMonotone(k + 1, q, d);
      assert false;
    }
  }

  /** The posterior at the guess is finite: it raised nothing and is
      neither infinite nor NaN. */
  predicate GuessOk(lnpost: seq<real> -> Result<Ext>, guess: seq<real>) {
    lnpost(guess).Ok? && IsFinite(lnpost(guess).value)
  }

  /** The ensemble sampler's constructor accepts an even number of walkers,
      at least twice the number of parameters. */
  predicate WalkersAccepted(nwalkers: nat, nparam: nat) {
    nwalkers % 2 == 0 && nwalkers >= 2 * nparam
  }

  /** The driver as written. An error from the posterior at the guess
      propagates and a non-finite posterior there raises, both before the
      optimiser or the sampler is called; the sampler's constructor refuses
      an odd walker count or fewer than twice the parameter count; otherwise
      the sampler gets the as-written schedule, which it refuses when
      0 < nstep < ninfo because the only run then continues a sampler that
      was never started. */
  method Fit(lnpost: seq<real> -> Result<Ext>, guess: seq<real>, skipMinimize: bool, minimize: seq<real> -> seq<real>,
             nwalkers: nat, dwalker: real, noise: seq<seq<real>>, nstep: nat, ninfo: nat, verbose: bool)
    returns (r: Result<FitReport>)
    requires ninfo > 0
    requires |noise| == nwalkers && forall i :: 0 <= i < |noise| ==> |noise[i]| == |guess|
    requires skipMinimize || |minimize(guess)| == |guess|
    ensures lnpost(guess).Err? ==> r == Err(lnpost(guess).error)
    ensures lnpost(guess).Ok? && !IsFinite(lnpost(guess).value) ==> r == Err(InvalidGuess)
    ensures GuessOk(lnpost, guess) && !WalkersAccepted(nwalkers, |guess|) ==> r == Err(WalkerCount)
    ensures GuessOk(lnpost, guess) && WalkersAccepted(nwalkers, |guess|) && 0 < nstep < ninfo ==>
              r == Err(SamplerNotStarted)
    ensures GuessOk(lnpost, guess) && WalkersAccepted(nwalkers, |guess|) && !(0 < nstep < ninfo) ==>
              var start := StartPoint(guess, skipMinimize, minimize);
              r == Ok(FitReport(start, Seed(start, dwalker, noise), Schedule(nstep, ninfo, Seed(start, dwalker, noise)),
                                nstep, if verbose then ChunkRanges(nstep / ninfo, ninfo) else []))
    ensures r.Ok? ==> TotalSteps(r.value.runs) == r.value.steps == nstep && |r.value.walkers| == nwalkers
  {
    var lnpr := lnpost(guess);
    if lnpr.Err? {
      return Err(lnpr.error);
    }
    if !IsFinite(lnpr.value) {
      return Err(InvalidGuess);
    }
    var start := StartPoint(guess, skipMinimize, minimize);
    if !WalkersAccepted(nwalkers, |guess|) {
      return Err(WalkerCount);
    }
    var sampler := new Sampler(nwalkers, |guess|);
    var pos := Seed(start, dwalker, noise);
    var count, summaries := RunFullChunks(sampler, pos, nstep, ninfo, verbose);
    if count < nstep {
      var ok := sampler.RunMcmc(None, nstep - count);
      if !ok {
        return Err(SamplerNotStarted);
      }
    }
    ScheduleTotal(nstep, ninfo, pos);
    assert sampler.runs == Schedule(nstep, ninfo, pos);
    assert sampler.iterations == nstep;
    r := Ok(FitReport(start, pos, sampler.runs, sampler.iterations, summaries));
  }

  /** The driver with the remainder run seeded when no full chunk ran: it
      fails only on the guess or the walker count, and its first run always
      starts from the seeded walker positions. */
  method FitSeeded(lnpost: seq<real> -> Result<Ext>, guess: seq<real>, skipMinimize: bool, minimize: seq<real> -> seq<real>,
                   nwalkers: nat, dwalker: real, noise: seq<seq<real>>, nstep: nat, ninfo: nat, verbose: bool)
    returns (r: Result<FitReport>)
    requires ninfo > 0
    requires |noise| == nwalkers && forall i :: 0 <= i < |noise| ==> |noise[i]| == |guess|
    requires skipMinimize || |minimize(guess)| == |guess|
    ensures lnpost(guess).Err? ==> r == Err(lnpost(guess).error)
    ensures lnpost(guess).Ok? && !IsFinite(lnpost(guess).value) ==> r == Err(InvalidGuess)
    ensures GuessOk(lnpost, guess) && !WalkersAccepted(nwalkers, |guess|) ==> r == Err(WalkerCount)
    ensures GuessOk(lnpost, guess) && WalkersAccepted(nwalkers, |guess|) ==>
              var start := StartPoint(guess, skipMinimize, minimize);
              r == Ok(FitReport(start, Seed(start, dwalker, noise), SeededSchedule(nstep, ninfo, Seed(start, dwalker, noise)),
                                nstep, if verbose then ChunkRanges(nstep / ninfo, ninfo) else []))
    ensures r.Ok? ==> TotalSteps(r.value.runs) == r.value.steps == nstep && |r.value.walkers| == nwalkers
    ensures r.Ok? && nstep > 0 ==> |r.value.runs| > 0 && r.value.runs[0].start == Some(r.value.walkers)
  {
    var lnpr := lnpost(guess);
    if lnpr.Err? {
      return Err(lnpr.error);
    }
    if !IsFinite(lnpr.value) {
      return Err(InvalidGuess);
    }
    var start := StartPoint(guess, skipMinimize, minimize);
    if !WalkersAccepted(nwalkers, |guess|) {
      return Err(WalkerCount);
    }
    var sampler := new Sampler(nwalkers, |guess|);
    var pos := Seed(start, dwalker, noise);
    var count, summaries := RunFullChunks(sampler, pos, nstep, ninfo, verbose);
    if count < nstep {
      var ok := sampler.RunMcmc(if count == 0 then Some(pos) else None, nstep - count);
    }
    ScheduleTotal(nstep, ninfo, pos);
    SeededScheduleShape(nstep, ninfo, pos);
    assert sampler.runs == SeededSchedule(nstep, ninfo, pos);
    assert sampler.iterations == nstep;
    r := Ok(FitReport(start, pos, sampler.runs, sampler.iterations, summaries));
  }
}
