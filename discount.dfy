/**
 An importance-sampling estimator of object counts over a large set of units,
 with a detector's per-unit counts as the proposal.

 A detector count g[s] is known for every unit s of the population. Units are
 drawn with replacement with probability proportional to g, the drawn units are
 screened for their true count f[s], and the total count of any region R is
 estimated as G(R) times the mean importance weight f[s]/g[s] over the draws
 that fall in R, where G(R) is the detector total of R.

 Floating-point values are reals or NaN; NaN propagates through arithmetic as in
 IEEE 754 (infinities are not modelled). The square root of the confidence
 interval is not taken: the model reports squared half-widths.
 */
module Discount {

  /** A floating-point quantity: a real number, or NaN. */
  datatype Value = Num(x: real) | NaN

  datatype Option<T> = None | Some(value: T)

  /** Failures the source raises (as Python exceptions). */
  datatype Error =
    | NotSampled                  // `self.samples` is read before the first call of sample
    | NotLoaded                   // `self.f` is read before the first call of load
    | ScreenedTooShort(at: nat)   // load reads the screened list past its end, at this position
    | IndexOutOfRange(index: int) // a region lists an index that is not a valid index of g

  datatype Result<T> = Ok(value: T) | Err(error: Error)

  /** What estimate returns: one estimate and one squared 95% half-width per region. */
  datatype Report = Report(estimates: seq<Value>, squaredHalfWidths: seq<Value>)

  /** The default floor factor of the constructor. */
  const DefaultEps: real := 0.04

  /** The 97.5% quantile of the standard normal distribution used for the 95% interval. */
  const Z95: real := 1.96

  // ---------------------------------------------------------------------
  // Floating-point operations with NaN
  // ---------------------------------------------------------------------

  function Plus(a: Value, b: Value): Value
  {
    if a.Num? && b.Num? then Num(a.x + b.x) else NaN
  }

  function Minus(a: Value, b: Value): Value
  {
    if a.Num? && b.Num? then Num(a.x - b.x) else NaN
  }

  function Scaled(c: real, a: Value): Value
  {
    if a.Num? then Num(c * a.x) else NaN
  }

  function Over(a: Value, d: real): Value
    requires d != 0.0
  {
    if a.Num? then Num(a.x / d) else NaN
  }

  function Square(a: Value): Value
  {
    if a.Num? then Num(a.x * a.x) else NaN
  }

  // ---------------------------------------------------------------------
  // Sums, minimum and maximum of real sequences
  // ---------------------------------------------------------------------

  /** Left-to-right sum, as Python's sum and numpy's sum (up to rounding). */
  function Sum(s: seq<real>): real
  {
    if s == [] then 0.0 else Sum(s[..|s| - 1]) + s[|s| - 1]
  }

  function Min(s: seq<real>): real
    requires s != []
  {
    if |s| == 1 then s[0]
    else var m := Min(s[..|s| - 1]); if s[|s| - 1] < m then s[|s| - 1] else m
  }

  function Max(s: seq<real>): real
    requires s != []
  {
    if |s| == 1 then s[0]
    else var m := Max(s[..|s| - 1]); if s[|s| - 1] > m then s[|s| - 1] else m
  }

  lemma {:induction false} MinIsLowerBound(s: seq<real>, i: nat)
    requires i < |s|
    ensures Min(s) <= s[i]
  {
    if |s| > 1 && i < |s| - 1 {
      MinIsLowerBound(s[..|s| - 1], i);
    }
  }

  lemma {:induction false} MinIsAttained(s: seq<real>)
    requires s != []
    ensures exists i :: 0 <= i < |s| && Min(s) == s[i]
  {
    if |s| == 1 {
      assert Min(s) == s[0];
    } else {
      var front := s[..|s| - 1];
      MinIsAttained(front);
      var i :| 0 <= i < |front| && Min(front) == front[i];
      if s[|s| - 1] >= Min(front) {
        assert Min(s) == s[i];
      } else {
        assert Min(s) == s[|s| - 1];
      }
    }
  }

  lemma {:induction false} SumNonNegative(s: seq<real>)
    requires forall i :: 0 <= i < |s| ==> s[i] >= 0.0
    ensures Sum(s) >= 0.0
  {
    if s != [] {
      SumNonNegative(s[..|s| - 1]);
    }
  }

  lemma {:induction false} SumPositive(s: seq<real>)
    requires s != [] && forall i :: 0 <= i < |s| ==> s[i] > 0.0
    ensures Sum(s) > 0.0
  {
    SumNonNegative(s[..|s| - 1]);
  }

  // Small facts of real arithmetic, kept apart so that each proof sees only its own terms.

  lemma AddQuotients(a: real, b: real, t: real)
    requires t != 0.0
    ensures a / t + b / t == (a + b) / t
  {
  }

  lemma CancelFactor(c: real, x: real, y: real)
    requires x != 0.0
    ensures (y * (c * x)) / x == c * y
  {
    assert y * (c * x) == (c * y) * x;
  }

  lemma QuotientOfMultiple(c: real, x: real)
    requires x != 0.0
    ensures (c * x) / x == c
  {
  }

  lemma MeanOfConstant(gS: real, n: real, c: real)
    requires n != 0.0
    ensures gS * (n * c) / n == c * gS
  {
    assert gS * (n * c) == (c * gS) * n;
  }

  lemma AddOneFactor(n: real, c: real)
    ensures n * c + c == (n + 1.0) * c
  {
  }

  lemma Distribute(p: real, a: real, b: real)
    ensures p * a + p * b == p * (a + b)
  {
  }

  lemma NonNegativeQuotient(a: real, b: real, n: real)
    requires a >= 0.0 && b >= 0.0 && n > 0.0
    ensures a * b / n >= 0.0
  {
    assert a * b >= 0.0;
  }

  lemma PositiveQuotient(a: real, t: real)
    requires a > 0.0 && t > 0.0
    ensures a / t > 0.0
  {
  }

  lemma NonPositiveQuotient(a: real, t: real)
    requires a <= 0.0 && t > 0.0
    ensures a / t <= 0.0
  {
  }

  /** Dividing every term by t divides the sum by t. */
  lemma {:induction false} SumOfQuotients(a: seq<real>, s: seq<real>, t: real)
    requires t != 0.0 && |a| == |s|
    requires forall i :: 0 <= i < |a| ==> a[i] == s[i] / t
    ensures Sum(a) == Sum(s) / t
  {
    if a != [] {
      var n := |a|;
      SumOfQuotients(a[..n - 1], s[..n - 1], t);
      assert Sum(a) == Sum(s[..n - 1]) / t + s[n - 1] / t;
      AddQuotients(Sum(s[..n - 1]), s[n - 1], t);
    }
  }

  // ---------------------------------------------------------------------
  // Construction: the zero floor and the proposal distribution
  // ---------------------------------------------------------------------

  /** The offset added to every detector count when some count is zero: max(max(g) * eps, 1). */
  function FloorOffset(g: seq<real>, eps: real): (c: real)
    requires g != []
    ensures c >= 1.0 && c >= Max(g) * eps
  {
    if Max(g) * eps > 1.0 then Max(g) * eps else 1.0
  }

  /** The detector counts the estimator stores. */
  function Adjusted(g: seq<real>, eps: real): (a: seq<real>)
    requires g != []
    ensures |a| == |g|
  {
    if Min(g) == 0.0 then seq(|g|, i requires 0 <= i < |g| => g[i] + FloorOffset(g, eps)) else g
  }

  /** The proposal distribution q = g / sum(g). */
  function Proposal(g: seq<real>): (q: seq<real>)
    requires Sum(g) != 0.0
    ensures |q| == |g|
  {
    seq(|g|, i requires 0 <= i < |g| => g[i] / Sum(g))
  }

  /**
   When the smallest count is zero every count is shifted by the same offset,
   which makes every stored count at least 1; otherwise the counts are stored as
   given. Either way the order between any two counts is unchanged.
   */
  lemma AdjustedEntries(g: seq<real>, eps: real)
    requires g != []
    ensures Min(g) == 0.0 ==> forall i :: 0 <= i < |g| ==>
      Adjusted(g, eps)[i] == g[i] + FloorOffset(g, eps) && Adjusted(g, eps)[i] >= 1.0
    ensures Min(g) != 0.0 ==> Adjusted(g, eps) == g
    ensures forall i, j :: 0 <= i < |g| && 0 <= j < |g| ==>
      (g[i] < g[j] <==> Adjusted(g, eps)[i] < Adjusted(g, eps)[j])
  {
    forall i | 0 <= i < |g| ensures Min(g) <= g[i] {
      MinIsLowerBound(g, i);
    }
  }

  /** For non-negative detector counts every stored count is positive. */
  lemma AdjustedPositive(g: seq<real>, eps: real)
    requires g != [] && forall i :: 0 <= i < |g| ==> g[i] >= 0.0
    ensures forall i :: 0 <= i < |g| ==> Adjusted(g, eps)[i] > 0.0
    ensures Sum(Adjusted(g, eps)) > 0.0
  {
    AdjustedEntries(g, eps);
    MinIsAttained(g);
    forall i | 0 <= i < |g| ensures Adjusted(g, eps)[i] > 0.0 {
      MinIsLowerBound(g, i);
    }
    SumPositive(Adjusted(g, eps));
  }

  lemma ProposalSumsToOne(g: seq<real>)
    requires Sum(g) != 0.0
    ensures Sum(Proposal(g)) == 1.0
  {
    var t, q := Sum(g), Proposal(g);
    assert forall i :: 0 <= i < |q| ==> q[i] == g[i] / t;
    SumOfQuotients(q, g, t);
    assert t / t == 1.0;
  }

  /** q is a probability distribution: it sums to 1, and is positive where g is. */
  lemma ProposalIsDistribution(g: seq<real>)
    requires Sum(g) != 0.0
    ensures Sum(Proposal(g)) == 1.0
    ensures (forall i :: 0 <= i < |g| ==> g[i] > 0.0) ==> forall i :: 0 <= i < |g| ==> Proposal(g)[i] > 0.0
  {
    ProposalSumsToOne(g);
    if forall i :: 0 <= i < |g| ==> g[i] > 0.0 {
      SumPositive(g);
      forall i | 0 <= i < |g| ensures Proposal(g)[i] > 0.0 {
        PositiveQuotient(g[i], Sum(g));
      }
    }
  }

  /** With a positive total, q is positive exactly where g is (the sign of each entry is kept). */
  lemma ProposalPositive(g: seq<real>)
    requires Sum(g) > 0.0
    ensures forall i :: 0 <= i < |g| ==> (Proposal(g)[i] > 0.0 <==> g[i] > 0.0)
  {
    var t := Sum(g);
    forall i | 0 <= i < |g| ensures Proposal(g)[i] > 0.0 <==> g[i] > 0.0 {
      if g[i] > 0.0 {
        PositiveQuotient(g[i], t);
      } else {
        NonPositiveQuotient(g[i], t);
      }
    }
  }

  /** g = [0, 5] with eps = 0.04: the offset is max(0.2, 1) = 1, so g becomes [1, 6] and q = [1/7, 6/7]. */
  lemma ZeroFloorExample()
    ensures Adjusted([0.0, 5.0], DefaultEps) == [1.0, 6.0]
    ensures Sum([1.0, 6.0]) == 7.0
    ensures Proposal([1.0, 6.0]) == [1.0 / 7.0, 6.0 / 7.0]
  {
    var g := [0.0, 5.0];
    assert g[..1] == [0.0];
    assert Min(g) == 0.0 && Max(g) == 5.0;
    assert FloorOffset(g, DefaultEps) == 1.0;
    var a := Adjusted(g, DefaultEps);
    assert a[0] == 1.0 && a[1] == 6.0;
    var s := [1.0, 6.0];
    assert s[..1] == [1.0];
    assert Sum(s) == 7.0;
  }

  /** g = [1, 2, 3, 4] has no zero count: it is stored as given and q = [0.1, 0.2, 0.3, 0.4]. */
  lemma NoFloorExample()
    ensures Adjusted([1.0, 2.0, 3.0, 4.0], DefaultEps) == [1.0, 2.0, 3.0, 4.0]
    ensures Sum([1.0, 2.0, 3.0, 4.0]) == 10.0
    ensures Proposal([1.0, 2.0, 3.0, 4.0]) == [0.1, 0.2, 0.3, 0.4]
  {
    var g := [1.0, 2.0, 3.0, 4.0];
    assert g[..1] == [1.0] && g[..2] == [1.0, 2.0] && g[..3] == [1.0, 2.0, 3.0];
    assert g[..3][..2] == g[..2] && g[..2][..1] == g[..1];
    assert Min(g[..1]) == 1.0 && Min(g[..2]) == 1.0 && Min(g[..3]) == 1.0 && Min(g) == 1.0;
    assert Sum(g[..1]) == 1.0 && Sum(g[..2]) == 3.0 && Sum(g[..3]) == 6.0 && Sum(g) == 10.0;
  }

  // ---------------------------------------------------------------------
  // load: the per-unit table of screened counts
  // ---------------------------------------------------------------------

  /**
   The table load builds from the first |samples| screened values: NaN for every
   unit, then screened[i] written into slot samples[i] for i = 0, 1, ...
   */
  function LoadTable(n: nat, samples: seq<nat>, screened: seq<Value>): (t: seq<Value>)
    requires |samples| <= |screened|
    requires forall k :: 0 <= k < |samples| ==> samples[k] < n
    ensures |t| == n
  {
    if samples == [] then seq(n, _ => NaN)
    else LoadTable(n, samples[..|samples| - 1], screened)[samples[|samples| - 1] := screened[|samples| - 1]]
  }

  /** The last position at which u occurs in xs. */
  function LastIndex(xs: seq<nat>, u: nat): (k: nat)
    requires u in xs
    ensures k < |xs| && xs[k] == u
    ensures forall j :: k < j < |xs| ==> xs[j] != u
  {
    if xs[|xs| - 1] == u then |xs| - 1 else LastIndex(xs[..|xs| - 1], u)
  }

  /**
   Last write wins: a sampled unit holds the screened value of the last sample
   position that drew it; a unit never drawn holds NaN.
   */
  lemma {:induction false} LoadTableAt(n: nat, samples: seq<nat>, screened: seq<Value>, u: nat)
    requires |samples| <= |screened|
    requires forall k :: 0 <= k < |samples| ==> samples[k] < n
    requires u < n
    ensures LoadTable(n, samples, screened)[u] ==
      if u in samples then screened[LastIndex(samples, u)] else NaN
  {
    if samples != [] {
      var m := |samples|;
      var front := samples[..m - 1];
      LoadTableAt(n, front, screened, u);
      if samples[m - 1] != u {
        assert u in samples <==> u in front by {
          assert samples == front + [samples[m - 1]];
        }
      }
    }
  }

  // ---------------------------------------------------------------------
  // estimate: one region
  // ---------------------------------------------------------------------

  /** The sampled units that lie in the region: one per sample position, in sample order. */
  function InRegion(samples: seq<nat>, region: seq<int>): (s: seq<nat>)
    ensures |s| <= |samples|
    ensures forall k :: 0 <= k < |s| ==> s[k] in region && s[k] in samples
  {
    if samples == [] then []
    else
      var u := samples[|samples| - 1];
      InRegion(samples[..|samples| - 1], region) + (if u in region then [u] else [])
  }

  /**
   Each unit occurs in the region's samples as often as it was drawn when it lies
   in the region, and not at all otherwise.
   */
  lemma {:induction false} InRegionCounts(samples: seq<nat>, region: seq<int>, u: nat)
    ensures multiset(InRegion(samples, region))[u] ==
      if u in region then multiset(samples)[u] else 0
  {
    if samples != [] {
      var m := |samples|;
      var front, v := samples[..m - 1], samples[m - 1];
      InRegionCounts(front, region, u);
      assert samples == front + [v];
      assert multiset(samples) == multiset(front) + multiset{v};
      assert InRegion(samples, region) == InRegion(front, region) + (if v in region then [v] else []);
    }
  }

  /** No sample position falls in the region exactly when no sampled unit is listed in it. */
  lemma InRegionEmpty(samples: seq<nat>, region: seq<int>)
    ensures InRegion(samples, region) == [] <==> forall k :: 0 <= k < |samples| ==> samples[k] !in region
  {
    if InRegion(samples, region) == [] {
      forall k | 0 <= k < |samples| ensures samples[k] !in region {
        InRegionCounts(samples, region, samples[k]);
        assert samples[k] in multiset(samples);
      }
    } else {
      var s := InRegion(samples, region);
      assert s[0] in samples;
    }
  }

  /** The position in g that the Python index i refers to (negative indices count from the end). */
  function ListIndex(n: nat, i: int): int
  {
    if i < 0 then n + i else i
  }

  /**
   G(R): the sum of g over the region's listed indices, left to right, duplicates
   counted; the first index outside [-|g|, |g|) raises.
   */
  function RegionTotal(g: seq<real>, region: seq<int>): (r: Result<real>)
    ensures r.Ok? <==> forall k :: 0 <= k < |region| ==> -|g| <= region[k] < |g|
    ensures r.Err? ==> exists k :: (0 <= k < |region| && r.error == IndexOutOfRange(region[k]) &&
      !(-|g| <= region[k] < |g|) && forall j :: 0 <= j < k ==> -|g| <= region[j] < |g|)
  {
    if region == [] then Ok(0.0)
    else
      var front := RegionTotal(g, region[..|region| - 1]);
      assert forall k :: 0 <= k < |region| - 1 ==> region[..|region| - 1][k] == region[k];
      var i := region[|region| - 1];
      if front.Err? then front
      else if !(-|g| <= i < |g|) then Err(IndexOutOfRange(i))
      else Ok(front.value + g[ListIndex(|g|, i)])
  }

  /** The sampled units are indices of g and of the loaded table, and every count is positive. */
  predicate Consistent(g: seq<real>, samples: Option<seq<nat>>, f: Option<seq<Value>>)
  {
    && (forall i :: 0 <= i < |g| ==> g[i] > 0.0)
    && (samples.Some? ==> forall k :: 0 <= k < |samples.value| ==> samples.value[k] < |g|)
    && (f.Some? ==> |f.value| == |g|)
  }

  predicate Indexes(s: seq<nat>, g: seq<real>, f: seq<Value>)
  {
    forall k :: 0 <= k < |s| ==> s[k] < |g| && s[k] < |f| && g[s[k]] > 0.0
  }

  /** The sum of the importance weights f[s] / g[s] over s, accumulated left to right (w_bar). */
  function WeightTotal(f: seq<Value>, g: seq<real>, s: seq<nat>): (w: Value)
    requires Indexes(s, g, f)
    ensures (forall k :: 0 <= k < |s| ==> f[s[k]].Num?) ==> w.Num?
  {
    if s == [] then Num(0.0)
    else
      var u := s[|s| - 1];
      Plus(WeightTotal(f, g, s[..|s| - 1]), Over(f[u], g[u]))
  }

  /** The sum of the squared deviations (G * f[s] / g[s] - fHat)^2 over s, left to right (w_ci). */
  function DeviationTotal(f: seq<Value>, g: seq<real>, gS: real, fHat: Value, s: seq<nat>): (d: Value)
    requires Indexes(s, g, f)
    ensures fHat.Num? && (forall k :: 0 <= k < |s| ==> f[s[k]].Num?) ==> d.Num?
  {
    if s == [] then Num(0.0)
    else
      var u := s[|s| - 1];
      Plus(DeviationTotal(f, g, gS, fHat, s[..|s| - 1]), Square(Minus(Over(Scaled(gS, f[u]), g[u]), fHat)))
  }

  lemma SamplesAreIndexes(g: seq<real>, samples: seq<nat>, f: seq<Value>, region: seq<int>)
    requires Consistent(g, Some(samples), Some(f))
    ensures Indexes(samples, g, f) && Indexes(InRegion(samples, region), g, f)
  {
  }

  /** F = G(R) * w_bar / |S|, where w_bar is the sum of the importance weights over S. */
  function PointEstimate(f: seq<Value>, g: seq<real>, gS: real, s: seq<nat>): (e: Value)
    requires Indexes(s, g, f) && s != []
    ensures (forall k :: 0 <= k < |s| ==> f[s[k]].Num?) ==> e.Num?
  {
    Over(Scaled(gS, WeightTotal(f, g, s)), |s| as real)
  }

  /** The squared 95% half-width (1.96 * sqrt(var / |S_ci|))^2, where var = w_ci / |S_ci|. */
  function SquaredHalfWidth(f: seq<Value>, g: seq<real>, gS: real, fHat: Value, sCi: seq<nat>): (w: Value)
    requires Indexes(sCi, g, f) && sCi != []
    ensures fHat.Num? && (forall k :: 0 <= k < |sCi| ==> f[sCi[k]].Num?) ==> w.Num?
  {
    var n := |sCi| as real;
    Scaled(Z95 * Z95, Over(Over(DeviationTotal(f, g, gS, fHat, sCi), n), n))
  }

  /**
   The estimate and squared 95% half-width for one region: (0, 0) when no sample
   falls in it; otherwise the point estimate over the region's samples S and the
   half-width over S_ci, which is all samples or S.
   */
  function RegionEstimate(g: seq<real>, samples: Option<seq<nat>>, f: Option<seq<Value>>,
                          region: seq<int>, ciAllSamples: bool): (r: Result<(Value, Value)>)
    requires Consistent(g, samples, f)
    ensures r == Err(NotSampled) <==> samples.None?
  {
    if samples.None? then Err(NotSampled)
    else
      var s := InRegion(samples.value, region);
      var total := RegionTotal(g, region);
      if total.Err? then Err(total.error)
      else if s == [] then Ok((Num(0.0), Num(0.0)))
      else if f.None? then Err(NotLoaded)
      else
        var fHat := PointEstimate(f.value, g, total.value, s);
        var sCi := if ciAllSamples then samples.value else s;
        Ok((fHat, SquaredHalfWidth(f.value, g, total.value, fHat, sCi)))
  }

  /**
   The errors of one region, in the order the source meets them: no sample yet;
   then an index of the region outside g (G(R) is computed before the emptiness
   test); then, only for a region some sample falls in, no table yet. No other
   error is raised.
   */
  lemma RegionEstimateErrors(g: seq<real>, samples: Option<seq<nat>>, f: Option<seq<Value>>,
                             region: seq<int>, ciAllSamples: bool)
    requires Consistent(g, samples, f)
    ensures var r := RegionEstimate(g, samples, f, region, ciAllSamples);
      && (r == Err(NotSampled) <==> samples.None?)
      && ((r.Err? && r.error.IndexOutOfRange?) <==> samples.Some? && RegionTotal(g, region).Err?)
      && (r == Err(NotLoaded) <==>
          samples.Some? && RegionTotal(g, region).Ok? && InRegion(samples.value, region) != [] && f.None?)
      && (r.Err? ==> r.error.NotSampled? || r.error.IndexOutOfRange? || r.error.NotLoaded?)
  {
  }

  /** Extends a prefix of the answer with the answers of the remaining regions. */
  function Prepend(estimates: seq<Value>, halfWidths: seq<Value>, rest: Result<Report>): Result<Report>
  {
    match rest
    case Err(e) => Err(e)
    case Ok(r) => Ok(Report(estimates + r.estimates, halfWidths + r.squaredHalfWidths))
  }

  /** Gathers per-region answers in order; the first answer that is an error is the answer. */
  function Collect(results: seq<Result<(Value, Value)>>): (r: Result<Report>)
    ensures r.Ok? ==> |r.value.estimates| == |results| && |r.value.squaredHalfWidths| == |results|
  {
    if results == [] then Ok(Report([], []))
    else
      match results[0]
      case Err(e) => Err(e)
      case Ok(pair) => Prepend([pair.0], [pair.1], Collect(results[1..]))
  }

  /** The answer of every region, in region order. */
  function RegionResults(g: seq<real>, samples: Option<seq<nat>>, f: Option<seq<Value>>,
                         regions: seq<seq<int>>, ciAllSamples: bool): seq<Result<(Value, Value)>>
    requires Consistent(g, samples, f)
  {
    seq(|regions|, k requires 0 <= k < |regions| => RegionEstimate(g, samples, f, regions[k], ciAllSamples))
  }

  /** All regions in order; the first region that raises makes the whole call raise. */
  function EstimateAll(g: seq<real>, samples: Option<seq<nat>>, f: Option<seq<Value>>,
                       regions: seq<seq<int>>, ciAllSamples: bool): (r: Result<Report>)
    requires Consistent(g, samples, f)
    ensures r.Ok? ==> |r.value.estimates| == |regions| && |r.value.squaredHalfWidths| == |regions|
    ensures regions != [] && samples.None? ==> r == Err(NotSampled)
  {
    Collect(RegionResults(g, samples, f, regions, ciAllSamples))
  }

  // ---------------------------------------------------------------------
  // Properties of the estimate
  // ---------------------------------------------------------------------

  lemma {:induction false} CollectOk(results: seq<Result<(Value, Value)>>)
    ensures Collect(results).Ok? <==> forall k :: 0 <= k < |results| ==> results[k].Ok?
  {
    if results != [] {
      CollectOk(results[1..]);
      assert forall k :: 0 < k < |results| ==> results[k] == results[1..][k - 1];
    }
  }

  lemma {:induction false} CollectValues(results: seq<Result<(Value, Value)>>)
    ensures var r := Collect(results);
      r.Ok? ==>
        && |r.value.estimates| == |results| && |r.value.squaredHalfWidths| == |results|
        && forall k :: 0 <= k < |results| ==>
             results[k] == Ok((r.value.estimates[k], r.value.squaredHalfWidths[k]))
  {
    var r := Collect(results);
    if results != [] && r.Ok? {
      CollectValues(results[1..]);
      forall k | 0 <= k < |results|
        ensures results[k] == Ok((r.value.estimates[k], r.value.squaredHalfWidths[k]))
      {
        if k > 0 { assert results[k] == results[1..][k - 1]; }
      }
    }
  }

  lemma {:induction false} CollectFirstError(results: seq<Result<(Value, Value)>>)
    ensures var r := Collect(results);
      r.Err? ==> exists k :: (0 <= k < |results| && results[k] == Err(r.error) &&
        forall j :: 0 <= j < k ==> results[j].Ok?)
  {
    if results != [] && results[0].Ok? && Collect(results[1..]).Err? {
      var rest := results[1..];
      CollectFirstError(rest);
      var k :| 0 <= k < |rest| && rest[k] == Err(Collect(rest).error)
        && forall j :: 0 <= j < k ==> rest[j].Ok?;
      assert results[k + 1] == rest[k];
      assert forall j :: 0 < j < k + 1 ==> results[j] == rest[j - 1];
    }
  }

  /** estimate succeeds exactly when every region's estimate succeeds. */
  lemma EstimateAllOk(g: seq<real>, samples: Option<seq<nat>>, f: Option<seq<Value>>,
                      regions: seq<seq<int>>, ciAllSamples: bool)
    requires Consistent(g, samples, f)
    ensures EstimateAll(g, samples, f, regions, ciAllSamples).Ok?
      <==> forall k :: 0 <= k < |regions| ==> RegionEstimate(g, samples, f, regions[k], ciAllSamples).Ok?
  {
    var results := RegionResults(g, samples, f, regions, ciAllSamples);
    assert forall k :: 0 <= k < |regions| ==> results[k] == RegionEstimate(g, samples, f, regions[k], ciAllSamples);
    CollectOk(results);
  }

  /** When estimate succeeds it answers one estimate and one half-width per region, in region order. */
  lemma EstimateAllValues(g: seq<real>, samples: Option<seq<nat>>, f: Option<seq<Value>>,
                          regions: seq<seq<int>>, ciAllSamples: bool)
    requires Consistent(g, samples, f)
    ensures var r := EstimateAll(g, samples, f, regions, ciAllSamples);
      r.Ok? ==>
        && |r.value.estimates| == |regions| && |r.value.squaredHalfWidths| == |regions|
        && forall k :: 0 <= k < |regions| ==>
             RegionEstimate(g, samples, f, regions[k], ciAllSamples)
               == Ok((r.value.estimates[k], r.value.squaredHalfWidths[k]))
  {
    var results := RegionResults(g, samples, f, regions, ciAllSamples);
    assert forall k :: 0 <= k < |regions| ==> results[k] == RegionEstimate(g, samples, f, regions[k], ciAllSamples);
    CollectValues(results);
  }

  /** When estimate raises, it raises the error of the first region that raises. */
  lemma EstimateAllFirstError(g: seq<real>, samples: Option<seq<nat>>, f: Option<seq<Value>>,
                              regions: seq<seq<int>>, ciAllSamples: bool)
    requires Consistent(g, samples, f)
    ensures var r := EstimateAll(g, samples, f, regions, ciAllSamples);
      r.Err? ==> exists k :: (0 <= k < |regions| &&
        RegionEstimate(g, samples, f, regions[k], ciAllSamples) == Err(r.error) &&
        forall j :: 0 <= j < k ==> RegionEstimate(g, samples, f, regions[j], ciAllSamples).Ok?)
  {
    var results := RegionResults(g, samples, f, regions, ciAllSamples);
    assert forall k :: 0 <= k < |regions| ==> results[k] == RegionEstimate(g, samples, f, regions[k], ciAllSamples);
    CollectFirstError(results);
  }

  /**
   A region in which no sampled unit lies gets estimate 0 and half-width 0,
   whether or not screened counts were loaded.
   */
  lemma EmptyRegionIsZero(g: seq<real>, samples: seq<nat>, f: Option<seq<Value>>,
                          region: seq<int>, ciAllSamples: bool)
    requires Consistent(g, Some(samples), f)
    requires forall k :: 0 <= k < |region| ==> -|g| <= region[k] < |g|
    requires forall k :: 0 <= k < |samples| ==> samples[k] !in region
    ensures RegionEstimate(g, Some(samples), f, region, ciAllSamples) == Ok((Num(0.0), Num(0.0)))
  {
    InRegionEmpty(samples, region);
  }

  lemma PrependNothing(rest: Result<Report>)
    ensures Prepend([], [], rest) == rest
  {
    if rest.Ok? {
      assert [] + rest.value.estimates == rest.value.estimates;
      assert [] + rest.value.squaredHalfWidths == rest.value.squaredHalfWidths;
    }
  }

  lemma PrependTwice(estimates: seq<Value>, halfWidths: seq<Value>, e: Value, w: Value, rest: Result<Report>)
    ensures Prepend(estimates, halfWidths, Prepend([e], [w], rest)) == Prepend(estimates + [e], halfWidths + [w], rest)
  {
    if rest.Ok? {
      assert estimates + ([e] + rest.value.estimates) == (estimates + [e]) + rest.value.estimates;
      assert halfWidths + ([w] + rest.value.squaredHalfWidths) == (halfWidths + [w]) + rest.value.squaredHalfWidths;
    }
  }

  /** Moving past a region that succeeds: its pair joins the prefix. */
  lemma CollectStep(results: seq<Result<(Value, Value)>>, k: nat, estimates: seq<Value>, halfWidths: seq<Value>, e: Value, w: Value)
    requires k < |results| && results[k] == Ok((e, w))
    ensures Prepend(estimates, halfWidths, Collect(results[k..]))
      == Prepend(estimates + [e], halfWidths + [w], Collect(results[k + 1..]))
  {
    assert results[k..][0] == results[k] && results[k..][1..] == results[k + 1..];
    PrependTwice(estimates, halfWidths, e, w, Collect(results[k + 1..]));
  }

  /** Reaching a region that fails: its error is the answer, whatever came before. */
  lemma CollectStop(results: seq<Result<(Value, Value)>>, k: nat, estimates: seq<Value>, halfWidths: seq<Value>)
    requires k < |results| && results[k].Err?
    ensures Prepend(estimates, halfWidths, Collect(results[k..])) == Err(results[k].error)
  {
    assert results[k..][0] == results[k];
  }

  lemma {:induction false} WeightTotalProportional(f: seq<Value>, g: seq<real>, s: seq<nat>, c: real)
    requires Indexes(s, g, f)
    requires forall k :: 0 <= k < |s| ==> ScaledBy(f, g, s[k], c)
    ensures WeightTotal(f, g, s) == Num(|s| as real * c)
  {
    if s != [] {
      var u := s[|s| - 1];
      var front := s[..|s| - 1];
      WeightTotalProportional(f, g, front, c);
      assert ScaledBy(f, g, u, c);
      QuotientOfMultiple(c, g[u]);
      assert Over(f[u], g[u]) == Num(c);
      AddOneFactor(|front| as real, c);
      assert |s| as real == |front| as real + 1.0;
    }
  }

  lemma {:induction false} DeviationTotalProportional(f: seq<Value>, g: seq<real>, gS: real, s: seq<nat>, c: real)
    requires Indexes(s, g, f)
    requires forall k :: 0 <= k < |s| ==> ScaledBy(f, g, s[k], c)
    ensures DeviationTotal(f, g, gS, Num(c * gS), s) == Num(0.0)
  {
    if s != [] {
      var u := s[|s| - 1];
      DeviationTotalProportional(f, g, gS, s[..|s| - 1], c);
      assert ScaledBy(f, g, u, c);
      CancelFactor(c, g[u], gS);
      assert Over(Scaled(gS, f[u]), g[u]) == Num(c * gS);
    }
  }

  /** The screened count of unit u is c times its detector count. */
  predicate ScaledBy(f: seq<Value>, g: seq<real>, u: nat, c: real)
    requires u < |f| && u < |g|
  {
    f[u] == Num(c * g[u])
  }

  lemma {:induction false} InRegionProportional(g: seq<real>, samples: seq<nat>, f: seq<Value>, region: seq<int>, c: real)
    requires Indexes(samples, g, f)
    requires forall k :: 0 <= k < |samples| && samples[k] in region ==> ScaledBy(f, g, samples[k], c)
    ensures Indexes(InRegion(samples, region), g, f)
    ensures var s := InRegion(samples, region); forall k :: 0 <= k < |s| ==> ScaledBy(f, g, s[k], c)
  {
    if samples != [] {
      var front := samples[..|samples| - 1];
      assert forall k :: 0 <= k < |front| ==> front[k] == samples[k];
      InRegionProportional(g, front, f, region, c);
    }
  }

  /** The branch of a region estimate once samples fall in it and counts are loaded. */
  lemma RegionEstimateLoaded(g: seq<real>, samples: seq<nat>, f: seq<Value>,
                             region: seq<int>, ciAllSamples: bool)
    requires Consistent(g, Some(samples), Some(f))
    requires RegionTotal(g, region).Ok?
    requires InRegion(samples, region) != []
    ensures Indexes(samples, g, f) && Indexes(InRegion(samples, region), g, f)
    ensures var s := InRegion(samples, region);
      var gS := RegionTotal(g, region).value;
      var fHat := PointEstimate(f, g, gS, s);
      RegionEstimate(g, Some(samples), Some(f), region, ciAllSamples)
        == Ok((fHat, SquaredHalfWidth(f, g, gS, fHat, if ciAllSamples then samples else s)))
  {
  }

  /**
   A perfect detector up to a constant factor: if f[s] = c * g[s] for every sample
   used (those in the region, or all samples for the all-samples interval), the
   region's estimate is exactly c * G(R) and the variance, hence the half-width, is 0.
   */
  lemma ProportionalCounts(g: seq<real>, samples: seq<nat>, f: seq<Value>,
                           region: seq<int>, ciAllSamples: bool, c: real, gS: real)
    requires Consistent(g, Some(samples), Some(f))
    requires RegionTotal(g, region) == Ok(gS)
    requires InRegion(samples, region) != []
    requires forall k :: 0 <= k < |samples| && (ciAllSamples || samples[k] in region) ==>
      ScaledBy(f, g, samples[k], c)
    ensures RegionEstimate(g, Some(samples), Some(f), region, ciAllSamples) == Ok((Num(c * gS), Num(0.0)))
  {
    var s := InRegion(samples, region);
    var sCi := if ciAllSamples then samples else s;
    RegionEstimateLoaded(g, samples, f, region, ciAllSamples);
    var fHat := PointEstimate(f, g, gS, s);
    assert RegionEstimate(g, Some(samples), Some(f), region, ciAllSamples)
      == Ok((fHat, SquaredHalfWidth(f, g, gS, fHat, sCi)));
    ProportionalParts(g, samples, f, region, ciAllSamples, c, s, gS, sCi);
  }

  lemma ProportionalParts(g: seq<real>, samples: seq<nat>, f: seq<Value>, region: seq<int>,
                          ciAllSamples: bool, c: real, s: seq<nat>, gS: real, sCi: seq<nat>)
    requires Indexes(samples, g, f)
    requires s == InRegion(samples, region) && s != []
    requires sCi == if ciAllSamples then samples else s
    requires forall k :: 0 <= k < |samples| && (ciAllSamples || samples[k] in region) ==>
      ScaledBy(f, g, samples[k], c)
    ensures Indexes(s, g, f) && Indexes(sCi, g, f)
    ensures PointEstimate(f, g, gS, s) == Num(c * gS)
    ensures SquaredHalfWidth(f, g, gS, Num(c * gS), sCi) == Num(0.0)
  {
    InRegionProportional(g, samples, f, region, c);
    ProportionalPointEstimate(f, g, gS, s, c);
    if ciAllSamples {
      ProportionalHalfWidth(f, g, gS, samples, c);
    } else {
      ProportionalHalfWidth(f, g, gS, s, c);
    }
  }

  lemma ProportionalHalfWidth(f: seq<Value>, g: seq<real>, gS: real, sCi: seq<nat>, c: real)
    requires Indexes(sCi, g, f) && sCi != []
    requires forall k :: 0 <= k < |sCi| ==> ScaledBy(f, g, sCi[k], c)
    ensures SquaredHalfWidth(f, g, gS, Num(c * gS), sCi) == Num(0.0)
  {
    DeviationTotalProportional(f, g, gS, sCi, c);
    var n := |sCi| as real;
    assert 0.0 / n / n == 0.0;
  }

  lemma ProportionalPointEstimate(f: seq<Value>, g: seq<real>, gS: real, s: seq<nat>, c: real)
    requires Indexes(s, g, f) && s != []
    requires forall k :: 0 <= k < |s| ==> ScaledBy(f, g, s[k], c)
    ensures PointEstimate(f, g, gS, s) == Num(c * gS)
  {
    WeightTotalProportional(f, g, s, c);
    MeanOfConstant(gS, |s| as real, c);
  }

  lemma {:induction false} DeviationTotalNonNegative(f: seq<Value>, g: seq<real>, gS: real, fHat: Value, s: seq<nat>)
    requires Indexes(s, g, f)
    ensures DeviationTotal(f, g, gS, fHat, s).Num? ==> DeviationTotal(f, g, gS, fHat, s).x >= 0.0
  {
    if s != [] {
      DeviationTotalNonNegative(f, g, gS, fHat, s[..|s| - 1]);
    }
  }

  lemma SquaredHalfWidthSign(f: seq<Value>, g: seq<real>, gS: real, fHat: Value, sCi: seq<nat>)
    requires Indexes(sCi, g, f) && sCi != []
    ensures var w := SquaredHalfWidth(f, g, gS, fHat, sCi); w.Num? ==> w.x >= 0.0
  {
    DeviationTotalNonNegative(f, g, gS, fHat, sCi);
    var d := DeviationTotal(f, g, gS, fHat, sCi);
    if d.Num? {
      var n := |sCi| as real;
      assert d.x / n >= 0.0;
      assert d.x / n / n >= 0.0;
    }
  }

  /** The variance, and so the squared half-width, is never negative. */
  lemma SquaredHalfWidthNonNegative(g: seq<real>, samples: Option<seq<nat>>, f: Option<seq<Value>>,
                                    region: seq<int>, ciAllSamples: bool)
    requires Consistent(g, samples, f)
    requires RegionEstimate(g, samples, f, region, ciAllSamples).Ok?
    ensures var w := RegionEstimate(g, samples, f, region, ciAllSamples).value.1;
      w.Num? ==> w.x >= 0.0
  {
    if samples.Some? && f.Some? && InRegion(samples.value, region) != [] {
      var s := InRegion(samples.value, region);
      var sCi := if ciAllSamples then samples.value else s;
      var gS := RegionTotal(g, region).value;
      RegionEstimateLoaded(g, samples.value, f.value, region, ciAllSamples);
      SquaredHalfWidthSign(f.value, g, gS, PointEstimate(f.value, g, gS, s), sCi);
    }
  }

  lemma {:induction false} RegionTotalNonNegative(g: seq<real>, region: seq<int>)
    requires forall i :: 0 <= i < |g| ==> g[i] > 0.0
    ensures RegionTotal(g, region).Ok? ==> RegionTotal(g, region).value >= 0.0
  {
    if region != [] {
      RegionTotalNonNegative(g, region[..|region| - 1]);
    }
  }

  lemma {:induction false} WeightTotalNonNegative(f: seq<Value>, g: seq<real>, s: seq<nat>)
    requires Indexes(s, g, f)
    requires forall u :: 0 <= u < |f| && f[u].Num? ==> f[u].x >= 0.0
    ensures WeightTotal(f, g, s).Num? ==> WeightTotal(f, g, s).x >= 0.0
  {
    if s != [] {
      WeightTotalNonNegative(f, g, s[..|s| - 1]);
    }
  }

  /** With non-negative screened counts the estimate is never negative. */
  lemma PointEstimateNonNegative(f: seq<Value>, g: seq<real>, gS: real, s: seq<nat>)
    requires Indexes(s, g, f) && s != [] && gS >= 0.0
    requires forall u :: 0 <= u < |f| && f[u].Num? ==> f[u].x >= 0.0
    ensures var e := PointEstimate(f, g, gS, s); e.Num? ==> e.x >= 0.0
  {
    WeightTotalNonNegative(f, g, s);
    var w := WeightTotal(f, g, s);
    if w.Num? {
      NonNegativeQuotient(gS, w.x, |s| as real);
    }
  }

  lemma EstimateNonNegative(g: seq<real>, samples: Option<seq<nat>>, f: Option<seq<Value>>,
                            region: seq<int>, ciAllSamples: bool)
    requires Consistent(g, samples, f)
    requires f.Some? ==> forall u :: 0 <= u < |f.value| && f.value[u].Num? ==> f.value[u].x >= 0.0
    requires RegionEstimate(g, samples, f, region, ciAllSamples).Ok?
    ensures var e := RegionEstimate(g, samples, f, region, ciAllSamples).value.0;
      e.Num? ==> e.x >= 0.0
  {
    if samples.Some? && f.Some? && InRegion(samples.value, region) != [] {
      RegionTotalNonNegative(g, region);
      var s := InRegion(samples.value, region);
      var gS := RegionTotal(g, region).value;
      RegionEstimateLoaded(g, samples.value, f.value, region, ciAllSamples);
      PointEstimateNonNegative(f.value, g, gS, s);
    }
  }


  lemma {:induction false} WeightTotalNaN(f: seq<Value>, g: seq<real>, s: seq<nat>)
    requires Indexes(s, g, f)
    ensures WeightTotal(f, g, s) == NaN <==> exists k :: 0 <= k < |s| && f[s[k]] == NaN
  {
    if s != [] {
      var front := s[..|s| - 1];
      WeightTotalNaN(f, g, front);
      if exists k :: 0 <= k < |front| && f[front[k]] == NaN {
        var k :| 0 <= k < |front| && f[front[k]] == NaN;
        assert s[k] == front[k];
      }
      if exists k :: 0 <= k < |s| && f[s[k]] == NaN {
        var k :| 0 <= k < |s| && f[s[k]] == NaN;
        if k < |front| { assert front[k] == s[k]; }
      }
    }
  }

  /**
   Once counts are loaded, a region's estimate is NaN exactly when some sample in
   it was never screened (its slot still holds NaN, or NaN was loaded into it).
   */
  lemma UnscreenedSampleGivesNaN(g: seq<real>, samples: seq<nat>, f: seq<Value>,
                                 region: seq<int>, ciAllSamples: bool)
    requires Consistent(g, Some(samples), Some(f))
    requires RegionTotal(g, region).Ok?
    ensures var r := RegionEstimate(g, Some(samples), Some(f), region, ciAllSamples);
      r.Ok? && (r.value.0 == NaN <==>
        exists k :: 0 <= k < |samples| && samples[k] in region && f[samples[k]] == NaN)
  {
    var s := InRegion(samples, region);
    if s == [] {
      InRegionEmpty(samples, region);
    } else {
      RegionEstimateLoaded(g, samples, f, region, ciAllSamples);
      WeightTotalNaN(f, g, s);
      if exists k :: 0 <= k < |samples| && samples[k] in region && f[samples[k]] == NaN {
        var k :| 0 <= k < |samples| && samples[k] in region && f[samples[k]] == NaN;
        InRegionCounts(samples, region, samples[k]);
        assert samples[k] in multiset(samples);
        assert samples[k] in multiset(s);
        var j :| 0 <= j < |s| && s[j] == samples[k];
      } else {
        forall j | 0 <= j < |s| ensures f[s[j]] != NaN {
          var k :| 0 <= k < |samples| && samples[k] == s[j];
        }
      }
    }
  }


  /**
   g = [1, 1, 1, 1], samples [0, 1, 2, 3], screened counts all 1 (a perfect
   detector): the region [0, 1, 2, 3] has G = 4 and gets estimate 4 with half-width 0.
   */
  lemma PerfectDetectorTotal()
    ensures RegionTotal([1.0, 1.0, 1.0, 1.0], [0, 1, 2, 3]) == Ok(4.0)
  {
    var g := [1.0, 1.0, 1.0, 1.0];
    var region := [0, 1, 2, 3];
    assert region[..1] == [0] && region[..2] == [0, 1] && region[..3] == [0, 1, 2];
    assert region[..3][..2] == region[..2] && region[..2][..1] == region[..1];
    assert RegionTotal(g, region[..1]) == Ok(1.0);
    assert RegionTotal(g, region[..2]) == Ok(2.0);
    assert RegionTotal(g, region[..3]) == Ok(3.0);
  }

  lemma PerfectDetectorExample(ciAllSamples: bool)
    ensures RegionEstimate([1.0, 1.0, 1.0, 1.0], Some([0, 1, 2, 3]), Some([Num(1.0), Num(1.0), Num(1.0), Num(1.0)]),
                           [0, 1, 2, 3], ciAllSamples) == Ok((Num(4.0), Num(0.0)))
  {
    var g := [1.0, 1.0, 1.0, 1.0];
    var region := [0, 1, 2, 3];
    var samples: seq<nat> := [0, 1, 2, 3];
    var f := [Num(1.0), Num(1.0), Num(1.0), Num(1.0)];
    PerfectDetectorTotal();
    InRegionEmpty(samples, region);
    assert samples[0] in region;
    assert forall k :: 0 <= k < |samples| ==> ScaledBy(f, g, samples[k], 1.0);
    ProportionalCounts(g, samples, f, region, ciAllSamples, 1.0, 4.0);
  }


  lemma WeightedTerm(gu: real, t: real, gS: real, fu: real)
    requires gu != 0.0 && t > 0.0
    ensures (gu / t) * (gS * fu / gu) == (gS / t) * fu
  {
    calc {
      (gu / t) * (gS * fu / gu);
      (gu * (gS * fu)) / (t * gu);
      (gS * fu) / t;
    }
  }

  /** The sum of xs over the listed units of a region (with repetitions). */
  function RegionSum(xs: seq<real>, region: seq<nat>): real
    requires forall k :: 0 <= k < |region| ==> region[k] < |xs|
  {
    if region == [] then 0.0 else RegionSum(xs, region[..|region| - 1]) + xs[region[|region| - 1]]
  }

  /** The sum over the region of q[u] * (gS * f[u] / g[u]): the expected weighted count of one draw inside the region. */
  function ExpectedWeight(q: seq<real>, g: seq<real>, counts: seq<real>, gS: real, region: seq<nat>): real
    requires |q| == |g| == |counts|
    requires forall k :: 0 <= k < |region| ==> region[k] < |g| && g[region[k]] != 0.0
  {
    if region == [] then 0.0
    else
      var u := region[|region| - 1];
      ExpectedWeight(q, g, counts, gS, region[..|region| - 1]) + q[u] * (gS * counts[u] / g[u])
  }

  /** When every unit's weighted term is p times its count, the q-weighted sum over the region is p times the region's total. */
  lemma {:induction false} ExpectedWeightLinear(q: seq<real>, g: seq<real>, counts: seq<real>, gS: real, p: real, region: seq<nat>)
    requires |q| == |g| == |counts|
    requires forall k :: 0 <= k < |region| ==> region[k] < |g| && g[region[k]] != 0.0
    requires forall u :: 0 <= u < |g| && g[u] != 0.0 ==> q[u] * (gS * counts[u] / g[u]) == p * counts[u]
    ensures ExpectedWeight(q, g, counts, gS, region) == p * RegionSum(counts, region)
  {
    if region != [] {
      var front := region[..|region| - 1];
      ExpectedWeightLinear(q, g, counts, gS, p, front);
      Distribute(p, RegionSum(counts, front), counts[region[|region| - 1]]);
    }
  }

  /** For q = g / t, each unit's term q[u] * (gS * f[u] / g[u]) is (gS / t) * f[u]. */
  lemma ProposalTerms(q: seq<real>, t: real, g: seq<real>, counts: seq<real>, gS: real)
    requires t > 0.0 && |q| == |g| == |counts|
    requires forall i :: 0 <= i < |g| ==> q[i] == g[i] / t
    ensures forall u :: 0 <= u < |g| && g[u] != 0.0 ==> q[u] * (gS * counts[u] / g[u]) == (gS / t) * counts[u]
  {
    forall u | 0 <= u < |g| && g[u] != 0.0 ensures q[u] * (gS * counts[u] / g[u]) == (gS / t) * counts[u] {
      WeightedTerm(g[u], t, gS, counts[u]);
    }
  }

  /** For q = g / t, the q-weighted sum of gS * f[s] / g[s] over the region is (gS / t) times the region's total of f. */
  lemma ExpectedWeightIs(q: seq<real>, t: real, g: seq<real>, counts: seq<real>, gS: real, region: seq<nat>)
    requires t > 0.0 && |q| == |g| == |counts|
    requires forall i :: 0 <= i < |g| ==> q[i] == g[i] / t
    requires forall k :: 0 <= k < |region| ==> region[k] < |g| && g[region[k]] > 0.0
    ensures ExpectedWeight(q, g, counts, gS, region) == (gS / t) * RegionSum(counts, region)
  {
    ProposalTerms(q, t, g, counts, gS);
    ExpectedWeightLinear(q, g, counts, gS, gS / t, region);
  }

  /** Over indices of g, the G(R) that estimate computes is the sum of g over the region's listed entries. */
  lemma {:induction false} RegionTotalIsSum(g: seq<real>, region: seq<nat>)
    requires forall k :: 0 <= k < |region| ==> region[k] < |g|
    ensures RegionTotal(g, region) == Ok(RegionSum(g, region))
  {
    if region != [] {
      RegionTotalIsSum(g, region[..|region| - 1]);
    }
  }

  lemma {:induction false} RegionProbability(g: seq<real>, region: seq<nat>)
    requires Sum(g) > 0.0
    requires forall k :: 0 <= k < |region| ==> region[k] < |g|
    ensures RegionSum(Proposal(g), region) == RegionSum(g, region) / Sum(g)
  {
    if region != [] {
      var u := region[|region| - 1];
      var front := region[..|region| - 1];
      RegionProbability(g, front);
      assert Proposal(g)[u] == g[u] / Sum(g);
      AddQuotients(RegionSum(g, front), g[u], Sum(g));
    }
  }

  /**
   Importance weighting is exact in expectation: for one draw s from q restricted
   to the region R, E[G(R) * f[s] / g[s]] is the true total of R. Stated without
   division by P(R): the sum over R of q[s] * G(R) * f[s] / g[s] is P(R) times the
   sum of f over R.
   */
  lemma RegionWeightUnbiased(g: seq<real>, counts: seq<real>, region: seq<nat>, gR: real)
    requires g != [] && |counts| == |g|
    requires forall i :: 0 <= i < |g| ==> g[i] > 0.0
    requires forall k :: 0 <= k < |region| ==> region[k] < |g|
    requires gR == RegionSum(g, region)
    ensures Sum(g) > 0.0
    ensures RegionSum(Proposal(g), region) == gR / Sum(g)
    ensures ExpectedWeight(Proposal(g), g, counts, gR, region)
      == RegionSum(Proposal(g), region) * RegionSum(counts, region)
  {
    SumPositive(g);
    ExpectedWeightIs(Proposal(g), Sum(g), g, counts, gR, region);
    RegionProbability(g, region);
  }

  /**
   The same identity for the G(R) that estimate itself computes: on a region of
   indices of g, the estimator's G_S is an unbiased one-draw weight factor.
   */
  lemma EstimatorWeightUnbiased(g: seq<real>, counts: seq<real>, region: seq<nat>, gS: real)
    requires g != [] && |counts| == |g|
    requires forall i :: 0 <= i < |g| ==> g[i] > 0.0
    requires forall k :: 0 <= k < |region| ==> region[k] < |g|
    requires RegionTotal(g, region) == Ok(gS)
    ensures Sum(g) > 0.0
    ensures ExpectedWeight(Proposal(g), g, counts, gS, region)
      == RegionSum(Proposal(g), region) * RegionSum(counts, region)
  {
    RegionTotalIsSum(g, region);
    RegionWeightUnbiased(g, counts, region, gS);
  }

  /** The loop of estimate that accumulates w_bar, the sum of f[s] / g[s] over the region's samples. */
  method SumWeights(f: seq<Value>, g: seq<real>, s: seq<nat>) returns (wBar: Value)
    requires Indexes(s, g, f)
    ensures wBar == WeightTotal(f, g, s)
  {
    wBar := Num(0.0);
    var j := 0;
    while j < |s|
      invariant 0 <= j <= |s|
      invariant wBar == WeightTotal(f, g, s[..j])
    {
      assert s[..j + 1][..j] == s[..j];
      wBar := Plus(wBar, Over(f[s[j]], g[s[j]]));
      j := j + 1;
    }
    assert s[..j] == s;
  }

  /** The loop of estimate that accumulates w_ci, the sum of (G * f[s] / g[s] - fHat)^2 over S_ci. */
  method SumDeviations(f: seq<Value>, g: seq<real>, gS: real, fHat: Value, sCi: seq<nat>) returns (wCi: Value)
    requires Indexes(sCi, g, f)
    ensures wCi == DeviationTotal(f, g, gS, fHat, sCi)
  {
    wCi := Num(0.0);
    var j := 0;
    while j < |sCi|
      invariant 0 <= j <= |sCi|
      invariant wCi == DeviationTotal(f, g, gS, fHat, sCi[..j])
    {
      assert sCi[..j + 1][..j] == sCi[..j];
      var u := sCi[j];
      wCi := Plus(wCi, Square(Minus(Over(Scaled(gS, f[u]), g[u]), fHat)));
      j := j + 1;
    }
    assert sCi[..j] == sCi;
  }

  // ---------------------------------------------------------------------
  // The estimator object
  // ---------------------------------------------------------------------

  /**
   The estimator: the stored detector counts g, the proposal q, the current sample
   (absent until sample is called) and the per-unit table f of screened counts
   (absent until load is called).
   */
  class Estimator {
    var g: seq<real>
    var q: seq<real>
    var samples: Option<seq<nat>>
    var f: Option<seq<Value>>

    ghost predicate Valid()
      reads this
    {
      g != [] && Consistent(g, samples, f) && Sum(g) > 0.0 && q == Proposal(g)
    }

    /** Stores the counts, shifted by the floor offset when some count is zero, and q = g / sum(g). */
    constructor (counts: seq<real>, eps: real := DefaultEps)
      requires counts != [] && forall i :: 0 <= i < |counts| ==> counts[i] >= 0.0
      ensures Valid()
      ensures g == Adjusted(counts, eps) && q == Proposal(g)
      ensures samples == None && f == None
    {
      var stored := counts;
      if Min(counts) == 0.0 {
        var offset := FloorOffset(counts, eps);
        stored := seq(|counts|, i requires 0 <= i < |counts| => counts[i] + offset);
      }
      AdjustedPositive(counts, eps);
      g := stored;
      q := seq(|stored|, i requires 0 <= i < |stored| => stored[i] / Sum(stored));
      samples := None;
      f := None;
    }

    /**
     Draws n units with replacement from q. The random choice is a parameter:
     draws are the units the generator returned, each an index of g.
     */
    method Sample(n: nat, draws: seq<nat>) returns (drawn: seq<nat>)
      requires Valid()
      requires |draws| == n && forall k :: 0 <= k < n ==> draws[k] < |g|
      modifies this
      ensures Valid()
      ensures |drawn| == n && drawn == draws && samples == Some(drawn)
      ensures g == old(g) && q == old(q) && f == old(f)
    {
      samples := Some(draws);
      drawn := draws;
    }

    /**
     Builds the table f: NaN for every unit, then the screened value of each sample
     position written into the slot of the unit drawn there. Fails, leaving the table
     filled up to that position, when there is no sample yet or the screened list is
     shorter than the sample.
     */
    method Load(screened: seq<Value>) returns (r: Result<()>)
      requires Valid()
      modifies this
      ensures Valid()
      ensures g == old(g) && q == old(q) && samples == old(samples)
      ensures var drawn := if samples.Some? then samples.value else [];
        var m := if |screened| < |drawn| then |screened| else |drawn|;
        f == Some(LoadTable(|g|, drawn[..m], screened))
      ensures r == if samples.None? then Err(NotSampled)
                   else if |screened| < |samples.value| then Err(ScreenedTooShort(|screened|))
                   else Ok(())
    {
      f := Some(seq(|g|, _ => NaN));
      if samples.None? {
        var none: seq<nat> := [];
        assert none[..0] == none;
        return Err(NotSampled);
      }
      var drawn := samples.value;
      var i := 0;
      while i < |drawn|
        invariant 0 <= i <= |drawn| && i <= |screened|
        invariant g == old(g) && q == old(q) && samples == old(samples)
        invariant f == Some(LoadTable(|g|, drawn[..i], screened))
      {
        if i == |screened| {
          return Err(ScreenedTooShort(i));
        }
        assert drawn[..i + 1][..i] == drawn[..i];
        f := Some(f.value[drawn[i] := screened[i]]);
        i := i + 1;
      }
      assert drawn[..i] == drawn;
      return Ok(());
    }

    /** One region of estimate: the point estimate and the squared half-width. */
    method EstimateRegion(region: seq<int>, ciAllSamples: bool) returns (r: Result<(Value, Value)>)
      requires Valid()
      ensures r == RegionEstimate(g, samples, f, region, ciAllSamples)
    {
      if samples.None? {
        return Err(NotSampled);
      }
      var drawn := samples.value;
      var s := InRegion(drawn, region);
      var total := RegionTotal(g, region);
      if total.Err? {
        return Err(total.error);
      }
      var gS := total.value;
      if |s| == 0 {
        return Ok((Num(0.0), Num(0.0)));
      }
      if f.None? {
        return Err(NotLoaded);
      }
      var table := f.value;
      SamplesAreIndexes(g, drawn, table, region);
      var wBar := SumWeights(table, g, s);
      var fHat := Over(Scaled(gS, wBar), |s| as real);
      var sCi := if ciAllSamples then drawn else s;
      var wCi := SumDeviations(table, g, gS, fHat, sCi);
      var varHat := Over(wCi, |sCi| as real);
      r := Ok((fHat, Scaled(Z95 * Z95, Over(varHat, |sCi| as real))));
    }

    /** The estimates and squared half-widths of all regions, in region order. */
    method Estimate(regions: seq<seq<int>>, ciAllSamples: bool := false) returns (r: Result<Report>)
      requires Valid()
      ensures r == EstimateAll(g, samples, f, regions, ciAllSamples)
    {
      ghost var results := RegionResults(g, samples, f, regions, ciAllSamples);
      var estimates: seq<Value> := [];
      var halfWidths: seq<Value> := [];
      var k := 0;
      assert results[0..] == results;
      PrependNothing(Collect(results));
      while k < |regions|
        invariant 0 <= k <= |regions|
        invariant Collect(results) == Prepend(estimates, halfWidths, Collect(results[k..]))
      {
        var one := EstimateRegion(regions[k], ciAllSamples);
        assert one == results[k];
        if one.Err? {
          CollectStop(results, k, estimates, halfWidths);
          return Err(one.error);
        }
        CollectStep(results, k, estimates, halfWidths, one.value.0, one.value.1);
        estimates := estimates + [one.value.0];
        halfWidths := halfWidths + [one.value.1];
        k := k + 1;
      }
      assert results[k..] == [];
      assert estimates + [] == estimates && halfWidths + [] == halfWidths;
      r := Ok(Report(estimates, halfWidths));
    }

  }
}
