/** The posterior output normaliser: turns what an inference engine returns
    into one posterior record per pattern (MarkovModel/IdealObserver.py,
    the output loop of the fixed observer, the keying of the uncoupled
    observer, `compute_mean_of_dist`, `compute_sd_of_dist` and
    `fill_output_hmm`). */
module PosteriorOutput {
  import opened Wrappers
  import opened Types
  import opened Numerics

  /** What the closed-form engine returns: mean, mode and SD per pattern. */
  datatype FixedPosterior = FixedPosterior(
    mean: map<Pattern, seq<real>>,
    modes: map<Pattern, seq<real>>,
    sd: map<Pattern, seq<real>>)

  /** One record per pattern of the mean table; a pattern missing from the
      mode or the SD table is a failed lookup. */
  function FillOutputFixed(post: FixedPosterior): (r: Result<map<Pattern, Posterior>, Error>)
    ensures r.Success? <==> post.mean.Keys <= post.modes.Keys && post.mean.Keys <= post.sd.Keys
    ensures r.Failure? ==> r.error == MissingPattern
    ensures r.Success? ==> r.value.Keys == post.mean.Keys
    ensures r.Success? ==> forall k | k in r.value ::
      r.value[k] == Posterior(post.mean[k], post.sd[k], Mode(post.modes[k]))
  {
    if post.mean.Keys <= post.modes.Keys && post.mean.Keys <= post.sd.Keys then
      Success(map k | k in post.mean :: Posterior(post.mean[k], post.sd[k], Mode(post.modes[k])))
    else Failure(MissingPattern)
  }

  /** `resol` evenly spaced points from 0 to 1, as `linspace(0, 1, resol)`. */
  function Grid(resol: nat): (g: seq<real>)
    ensures |g| == resol
    ensures resol > 1 ==> forall i | 0 <= i < resol :: g[i] == i as real / (resol - 1) as real
    ensures forall i | 0 <= i < resol :: 0.0 <= g[i] <= 1.0
    ensures resol > 0 ==> g[0] == 0.0
    ensures resol > 1 ==> g[resol - 1] == 1.0
    ensures forall i | 1 <= i < resol :: g[i - 1] < g[i]
  {
    if resol <= 1 then seq(resol, _ => 0.0)
    else
      var g := seq(resol, i requires 0 <= i < resol => i as real / (resol - 1) as real);
      GridFacts(g, resol - 1);
      g
  }

  /** The points `i / d` for `i` = 0 .. d lie in [0, 1] and increase. */
  lemma GridFacts(g: seq<real>, d: nat)
    requires 0 < d && |g| == d + 1
    requires forall i | 0 <= i <= d :: g[i] == i as real / d as real
    ensures forall i | 0 <= i <= d :: 0.0 <= g[i] <= 1.0
    ensures forall i | 1 <= i <= d :: g[i - 1] < g[i]
    ensures g[0] == 0.0 && g[d] == 1.0
  {
    var x := g[d];
    assert x == d as real / d as real;
    assert x * d as real == d as real;
    forall i | 0 <= i <= d ensures 0.0 <= g[i] <= 1.0 {
      GridPoint(i, d);
    }
    forall i | 1 <= i <= d ensures g[i - 1] < g[i] {
      GridStep(i, d);
    }
  }

  lemma GridPoint(i: nat, d: nat)
    requires 0 < d && i <= d
    ensures 0.0 <= i as real / d as real <= 1.0
  {
    var x := i as real / d as real;
    assert x * d as real == i as real;
  }

  lemma GridStep(i: nat, d: nat)
    requires 0 < d && 0 < i
    ensures (i - 1) as real / d as real < i as real / d as real
  {
    var x, y := (i - 1) as real / d as real, i as real / d as real;
    assert x * d as real == (i - 1) as real;
    assert y * d as real == i as real;
    assert (y - x) * d as real == 1.0;
  }

  /** Every trial's row of bin weights has one weight per grid point. */
  predicate BinsMatch(dist: seq<seq<real>>, resol: nat) {
    forall t | 0 <= t < |dist| :: |dist[t]| == resol
  }

  predicate AllBinsMatch(post: map<Pattern, seq<seq<real>>>, resol: nat) {
    forall k, t | k in post && 0 <= t < |post[k]| :: |post[k][t]| == resol
  }

  /** A change-point posterior fit for normalising: one row per trial,
      one weight per grid point. */
  predicate DistShaped(post: map<Pattern, seq<seq<real>>>, resol: nat, T: nat) {
    AllBinsMatch(post, resol) && forall k | k in post :: |post[k]| == T
  }

  /** The posterior mean per trial: the grid weighted by that trial's bins. */
  function MeanOfDist(dist: seq<seq<real>>, grid: seq<real>): (m: seq<real>)
    requires BinsMatch(dist, |grid|)
    ensures |m| == |dist|
    ensures forall t | 0 <= t < |dist| :: m[t] == Dot(dist[t], grid)
  {
    seq(|dist|, t requires 0 <= t < |dist| => Dot(dist[t], grid))
  }

  /** The second moment of the grid under `p` minus the squared mean. */
  function Variance(p: seq<real>, grid: seq<real>): real
    requires |p| == |grid|
  {
    Dot(p, Squares(grid)) - Dot(p, grid) * Dot(p, grid)
  }

  /** The posterior SD per trial: the root of that trial's variance. */
  function SdOfDist(dist: seq<seq<real>>, grid: seq<real>, f: Transcendental): (s: seq<real>)
    requires BinsMatch(dist, |grid|)
    ensures |s| == |dist|
    ensures forall t | 0 <= t < |dist| :: s[t] == f.sqrt(Variance(dist[t], grid))
  {
    seq(|dist|, t requires 0 <= t < |dist| => f.sqrt(Variance(dist[t], grid)))
  }

  /** One record per pattern, keeping its grid distribution. */
  function FillOutputHmm(post: map<Pattern, seq<seq<real>>>, resol: nat, f: Transcendental): (r: map<Pattern, Posterior>)
    requires AllBinsMatch(post, resol)
    ensures r.Keys == post.Keys
    ensures forall k | k in r :: r[k].summary == Binned(post[k])
    ensures forall k | k in r :: |r[k].mean| == |post[k]| && |r[k].sd| == |post[k]|
    ensures forall k, t | k in r && 0 <= t < |post[k]| ::
      r[k].mean[t] == Dot(post[k][t], Grid(resol))
    ensures forall k, t | k in r && 0 <= t < |post[k]| ::
      r[k].sd[t] == f.sqrt(Variance(post[k][t], Grid(resol)))
  {
    var grid := Grid(resol);
    map k | k in post :: Posterior(MeanOfDist(post[k], grid), SdOfDist(post[k], grid, f), Binned(post[k]))
  }

  /** Normalised change-point output is aligned with the sequence. */
  lemma FillOutputHmmAligned(post: map<Pattern, seq<seq<real>>>, resol: nat, T: nat, f: Transcendental)
    requires DistShaped(post, resol, T)
    ensures Aligned(FillOutputHmm(post, resol, f), T)
  { }

  /** The posterior mean of a genuine distribution over the grid is a
      probability. */
  lemma MeanIsProbability(p: seq<real>, resol: nat)
    requires |p| == resol && IsDistribution(p)
    ensures 0.0 <= Dot(p, Grid(resol)) <= 1.0
  {
    DotBetween(p, Grid(resol));
  }

  /** The quantity under the square root is the weighted spread around the
      mean, so it is never negative for a genuine distribution. */
  lemma VarianceNonNegative(p: seq<real>, g: seq<real>)
    requires |p| == |g| && IsDistribution(p)
    ensures Variance(p, g) == Dot(p, Deviations(g, Dot(p, g)))
    ensures Variance(p, g) >= 0.0
  {
    var m := Dot(p, g);
    DotDeviations(p, g, m);
    CancelMean(m, Dot(p, Squares(g)), Sum(p), Dot(p, Deviations(g, m)));
    DeviationsNonNegative(g, m);
    DotNonNegative(p, Deviations(g, m));
  }

  lemma CancelMean(m: real, sq: real, total: real, dev: real)
    requires total == 1.0 && dev == sq - 2.0 * m * m + m * m * total
    ensures sq - m * m == dev
  { }

  lemma DeviationsNonNegative(g: seq<real>, m: real)
    ensures NonNegative(Deviations(g, m))
  {
    forall i | 0 <= i < |g| ensures Deviations(g, m)[i] >= 0.0 {
      Square(g[i] - m);
    }
  }

  lemma Square(d: real)
    ensures d * d >= 0.0
  { }

  /** All the mass on bin `i` gives mean `i / (resol - 1)` and no spread. */
  lemma PointMassMoments(p: seq<real>, resol: nat, i: nat)
    requires |p| == resol && i < resol
    requires forall j | 0 <= j < resol :: p[j] == if j == i then 1.0 else 0.0
    ensures Dot(p, Grid(resol)) == Grid(resol)[i]
    ensures Variance(p, Grid(resol)) == 0.0
  {
    var g := Grid(resol);
    DotUnit(p, g, i);
    DotUnit(p, Squares(g), i);
    assert Squares(g)[i] == g[i] * g[i];
  }

  /** The posterior of the uncoupled observer for one transition condition:
      the condition label and the per-item posteriors inferred for it. */
  type ConditionPosterior = (Pattern, map<Pattern, seq<seq<real>>>)

  /** The condition label prefixed to every item key. */
  function Tag(cond: Pattern, post: map<Pattern, seq<seq<real>>>): (r: map<Pattern, seq<seq<real>>>)
    ensures forall item | item in post :: cond + item in r && r[cond + item] == post[item]
    ensures forall k | k in r :: |cond| <= |k| && k[..|cond|] == cond && k[|cond|..] in post
  {
    var r := map k | k in (set item | item in post :: cond + item) :: post[k[|cond|..]];
    forall item | item in post ensures cond + item in r && r[cond + item] == post[item] {
      assert (cond + item)[|cond|..] == item;
    }
    forall k | k in r ensures |cond| <= |k| && k[..|cond|] == cond && k[|cond|..] in post {
      var item :| item in post && k == cond + item;
      assert k[|cond|..] == item;
    }
    r
  }

  /** Some condition at a position in [lo, hi) produces the key `k`. */
  predicate ProducedWithin(parts: seq<ConditionPosterior>, lo: int, hi: int, k: Pattern)
    requires 0 <= lo && hi <= |parts|
  {
    exists j | lo <= j < hi :: Produces(parts[j], k)
  }

  /** The condition produces key `k`: `k` is its label followed by one of its items. */
  predicate Produces(part: ConditionPosterior, k: Pattern) {
    |part.0| <= |k| && k[..|part.0|] == part.0 && k[|part.0|..] in part.1
  }

  /** The per-pattern posterior of the uncoupled observer: condition label
      and item label concatenated, a later condition overwriting an earlier
      one that produced the same key. */
  function CombineUncoupled(parts: seq<ConditionPosterior>): map<Pattern, seq<seq<real>>> {
    if |parts| == 0 then map[]
    else CombineUncoupled(parts[..|parts| - 1]) + Tag(parts[|parts| - 1].0, parts[|parts| - 1].1)
  }

  /** Every key comes from some condition. */
  lemma {:induction false} CombineUncoupledKeysProduced(parts: seq<ConditionPosterior>)
    ensures forall k | k in CombineUncoupled(parts) :: ProducedWithin(parts, 0, |parts|, k)
  {
    if |parts| > 0 {
      var n := |parts| - 1;
      CombineUncoupledKeysProduced(parts[..n]);
      forall k | k in CombineUncoupled(parts) ensures ProducedWithin(parts, 0, |parts|, k) {
        ProducedStep(parts, k);
      }
    }
  }

  lemma ProducedStep(parts: seq<ConditionPosterior>, k: Pattern)
    requires |parts| > 0 && k in CombineUncoupled(parts)
    requires k in CombineUncoupled(parts[..|parts| - 1]) ==>
      ProducedWithin(parts[..|parts| - 1], 0, |parts| - 1, k)
    ensures ProducedWithin(parts, 0, |parts|, k)
  {
    var n := |parts| - 1;
    var last := Tag(parts[n].0, parts[n].1);
    if k in last {
      assert Produces(parts[n], k);
    } else {
      assert k in CombineUncoupled(parts[..n]);
      var j :| 0 <= j < n && Produces(parts[..n][j], k);
      assert parts[..n][j] == parts[j];
    }
  }

  /** Every label-item concatenation is a key. */
  lemma {:induction false} CombineUncoupledKeysComplete(parts: seq<ConditionPosterior>)
    ensures forall i, item | 0 <= i < |parts| && item in parts[i].1 ::
      parts[i].0 + item in CombineUncoupled(parts)
  {
    if |parts| > 0 {
      var n := |parts| - 1;
      CombineUncoupledKeysComplete(parts[..n]);
      forall i, item | 0 <= i < |parts| && item in parts[i].1
        ensures parts[i].0 + item in CombineUncoupled(parts)
      {
        if i < n {
          assert parts[..n][i] == parts[i];
        }
      }
    }
  }

  /** Each key holds the posterior of the last condition that produced it. */
  lemma {:induction false} CombineUncoupledLastWins(parts: seq<ConditionPosterior>, i: nat, item: Pattern)
    requires i < |parts| && item in parts[i].1
    requires !ProducedWithin(parts, i + 1, |parts|, parts[i].0 + item)
    ensures parts[i].0 + item in CombineUncoupled(parts)
    ensures CombineUncoupled(parts)[parts[i].0 + item] == parts[i].1[item]
  {
    var n := |parts| - 1;
    var k := parts[i].0 + item;
    var last := Tag(parts[n].0, parts[n].1);
    if i < n {
      assert parts[..n][i] == parts[i];
      assert !Produces(parts[n], k);
      assert k !in last;
      forall j | i + 1 <= j < n ensures !Produces(parts[..n][j], k) {
        assert parts[..n][j] == parts[j];
      }
      CombineUncoupledLastWins(parts[..n], i, item);
    }
  }
}
