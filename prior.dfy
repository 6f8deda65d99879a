/** The flat (uniform) log-prior and the prior strategies a posterior can be
    given. */
module Prior {
  import opened Basics

  /** An open interval (lo, hi) for one parameter. */
  datatype Bound = Bound(lo: real, hi: real)

  predicate Inside(p: real, b: Bound) { b.lo < p < b.hi }

  /** Every parameter that has a bound paired with it lies strictly inside
      that bound; pairing stops at the shorter of the two sequences. */
  ghost predicate WithinBounds(params: seq<real>, bounds: seq<Bound>) {
    forall i :: 0 <= i < |params| && i < |bounds| ==> Inside(params[i], bounds[i])
  }

  /** The flat log-prior: walks parameters and bounds pairwise and gives up
      with minus infinity at the first parameter not strictly inside its
      bound; 0 if none is found. */
  function LnPriorFlat(params: seq<real>, bounds: seq<Bound>): (r: Ext)
    ensures r == Fin(0.0) || r == NegInf
  {
    if |params| == 0 || |bounds| == 0 then Fin(0.0)
    else if !Inside(params[0], bounds[0]) then NegInf
    else LnPriorFlat(params[1..], bounds[1..])
  }

  /** The flat prior is 0 exactly when every paired parameter is strictly
      inside its bound, and minus infinity otherwise. */
  lemma {:induction false} LnPriorFlatCharacterized(params: seq<real>, bounds: seq<Bound>)
    ensures LnPriorFlat(params, bounds) == Fin(0.0) <==> WithinBounds(params, bounds)
    ensures LnPriorFlat(params, bounds) == NegInf <==> !WithinBounds(params, bounds)
  {
    if |params| == 0 || |bounds| == 0 {
    } else if !Inside(params[0], bounds[0]) {
    } else {
      LnPriorFlatCharacterized(params[1..], bounds[1..]);
      if WithinBounds(params[1..], bounds[1..]) {
        forall i | 0 <= i < |params| && i < |bounds|
          ensures Inside(params[i], bounds[i])
        {
          if i > 0 { assert params[1..][i - 1] == params[i]; }
        }
      } else {
        var j :| 0 <= j < |params[1..]| && j < |bounds[1..]| && !Inside(params[1..][j], bounds[1..][j]);
        assert !Inside(params[j + 1], bounds[j + 1]);
      }
    }
  }

  /** A parameter equal to either end of its interval is rejected. */
  lemma EndpointRejected(params: seq<real>, bounds: seq<Bound>, i: nat)
    requires i < |params| && i < |bounds|
    requires params[i] == bounds[i].lo || params[i] == bounds[i].hi
    ensures LnPriorFlat(params, bounds) == NegInf
  {
    LnPriorFlatCharacterized(params, bounds);
  }

  /** Parameters beyond the last bound are never looked at. */
  lemma UnboundedTailIgnored(params: seq<real>, extra: seq<real>, bounds: seq<Bound>)
    requires |bounds| <= |params|
    ensures LnPriorFlat(params + extra, bounds) == LnPriorFlat(params, bounds)
  {
    LnPriorFlatCharacterized(params, bounds);
    LnPriorFlatCharacterized(params + extra, bounds);
    assert forall i :: 0 <= i < |bounds| ==> (params + extra)[i] == params[i];
  }

  /** The prior a posterior evaluates first: the flat prior over given
      bounds (the default), or any caller-supplied log-prior. */
  datatype PriorFn = Flat(bounds: seq<Bound>) | Custom(f: seq<real> -> Ext)

  function EvalPrior(prior: PriorFn, params: seq<real>): (r: Ext)
    ensures prior.Flat? ==> (IsFinite(r) <==> WithinBounds(params, prior.bounds))
  {
    match prior
    case Flat(bounds) =>
      LnPriorFlatCharacterized(params, bounds);
      LnPriorFlat(params, bounds)
    case Custom(f) => f(params)
  }
}
