/** The binary prediction generator: the probability of item 0, and its SD,
    predicted for the next trial ("current") and for the trial itself
    ("prior") (MarkovModel/IdealObserver.py, `add_predictions`). */
module Prediction {
  import opened Wrappers
  import opened Types
  import opened Numerics

  /** A prior weight looked up in a prior value; only a dictionary can be
      indexed by a pattern. */
  function PriorWeight(prior: Value, q: Pattern): (r: Result<real, Error>)
    ensures r.Success? <==> prior.Table? && q in prior.entries
    ensures r.Success? ==> r.value == prior.entries[q]
    ensures r.Failure? && prior.Table? ==> r.error == MissingPattern
    ensures r.Failure? && !prior.Table? ==> r.error == BadOption("custom_prior")
  {
    match prior
    case Table(entries) => if q in entries then Success(entries[q]) else Failure(MissingPattern)
    case _ => Failure(BadOption("custom_prior"))
  }

  /** The two Dirichlet parameters of the base prediction. Only the fixed
      observer at order 0 uses its own prior (`fixedPrior` is the prior it
      was given, None for every other observer); every other case uses the
      flat prior (1, 1). */
  function BaseDirichlet(order: nat, fixedPrior: Option<Value>): (r: Result<(real, real), Error>)
    ensures order > 0 || fixedPrior.None? ==> r == Success((1.0, 1.0))
    ensures order == 0 && fixedPrior.Some? ==>
      (r.Success? <==> PriorWeight(fixedPrior.value, [0]).Success? && PriorWeight(fixedPrior.value, [1]).Success?)
    ensures order == 0 && fixedPrior.Some? && r.Success? ==>
      r.value == (fixedPrior.value.entries[[0]], fixedPrior.value.entries[[1]])
  {
    if order == 0 && fixedPrior.Some? then
      var a :- PriorWeight(fixedPrior.value, [0]);
      var b :- PriorWeight(fixedPrior.value, [1]);
      Success((a, b))
    else Success((1.0, 1.0))
  }

  /** Mean and SD of the first component of Dirichlet(a, b). Parameters
      that are not positive are rejected. */
  function DirichletMoments(a: real, b: real, f: Transcendental): (r: Result<(real, real), Error>)
    ensures r.Failure? <==> a <= 0.0 || b <= 0.0
    ensures r.Failure? ==> r.error == InvalidDirichlet
    ensures r.Success? ==> r.value.0 == a / (a + b) && 0.0 < r.value.0 < 1.0
    ensures r.Success? ==> r.value.1 == f.sqrt(a * b / ((a + b) * (a + b) * (a + b + 1.0)))
  {
    if a <= 0.0 || b <= 0.0 then Failure(InvalidDirichlet)
    else
      MeanBetween(a, b);
      Success((a / (a + b), f.sqrt(a * b / ((a + b) * (a + b) * (a + b + 1.0)))))
  }

  lemma MeanBetween(a: real, b: real)
    requires a > 0.0 && b > 0.0
    ensures 0.0 < a / (a + b) < 1.0
  {
    var m := a / (a + b);
    assert m * (a + b) == a;
  }

  /** The flat prior predicts item 0 with probability one half and SD
      sqrt(1/12). */
  lemma FlatPriorMoments(f: Transcendental)
    ensures DirichletMoments(1.0, 1.0, f) == Success((0.5, f.sqrt(1.0 / 12.0)))
  {
  }

  /** One of the last `order` symbols up to trial `t` is the pause code
      `nitem`. */
  predicate Paused(s: seq<int>, order: nat, nitem: nat, t: nat)
    requires 0 < order <= t < |s|
  {
    exists i | t - order + 1 <= i <= t :: s[i] == nitem
  }

  /** The pattern whose posterior predicts item 0 after trial `t`: the last
      `order` symbols followed by item 0. */
  function NextKey(s: seq<int>, order: nat, t: nat): (k: Pattern)
    requires 0 < order <= t < |s|
    ensures |k| == order + 1 && k[order] == 0
    ensures forall i | 0 <= i < order :: k[i] == s[t - order + 1 + i]
  {
    s[t - order + 1..t + 1] + [0]
  }

  /** The lookups of the current prediction find a pattern missing. */
  predicate LookupMisses(s: seq<int>, out: map<Pattern, Posterior>, order: nat, nitem: nat) {
    if order == 0 then |s| > 0 && [0] !in out
    else exists t | order <= t < |s| :: !Paused(s, order, nitem, t) && NextKey(s, order, t) !in out
  }

  /** `cur` and `sd` are the current prediction and its SD on every trial.
      At order 0 they are the posterior of item 0. At higher orders, before
      `order` trials have been seen and wherever a pause falls among the
      last `order` symbols, they are the base prediction `p0`, `sd0`;
      elsewhere they are the posterior of `NextKey`. */
  predicate IsCurrentPrediction(s: seq<int>, out: map<Pattern, Posterior>, order: nat, nitem: nat,
                                p0: real, sd0: real, cur: seq<real>, sd: seq<real>)
    requires Aligned(out, |s|)
  {
    && |cur| == |s| && |sd| == |s|
    && (order == 0 ==> forall t | 0 <= t < |s| ::
          [0] in out && cur[t] == out[[0]].mean[t] && sd[t] == out[[0]].sd[t])
    && (order > 0 ==> forall t | 0 <= t < |s| && t < order :: cur[t] == p0 && sd[t] == sd0)
    && (order > 0 ==> forall t | order <= t < |s| && Paused(s, order, nitem, t) :: cur[t] == p0 && sd[t] == sd0)
    && (order > 0 ==> forall t | order <= t < |s| && !Paused(s, order, nitem, t) ::
          NextKey(s, order, t) in out
          && cur[t] == out[NextKey(s, order, t)].mean[t] && sd[t] == out[NextKey(s, order, t)].sd[t])
  }

  /** The current prediction and its SD on every trial, as
      `IsCurrentPrediction` describes them. A missing pattern is a failed
      lookup. */
  method CurrentPrediction(s: seq<int>, out: map<Pattern, Posterior>, order: nat, nitem: nat, p0: real, sd0: real)
    returns (r: Result<(seq<real>, seq<real>), Error>)
    requires Aligned(out, |s|)
    ensures r.Failure? <==> LookupMisses(s, out, order, nitem)
    ensures r.Failure? ==> r.error == MissingPattern
    ensures r.Success? ==> IsCurrentPrediction(s, out, order, nitem, p0, sd0, r.value.0, r.value.1)
  {
    var cur := seq(|s|, _ => p0);
    var sd := seq(|s|, _ => sd0);
    if order == 0 {
      if |s| > 0 && [0] !in out {
        return Failure(MissingPattern);
      }
      var t := 0;
      while t < |s|
        invariant 0 <= t <= |s| && |cur| == |s| && |sd| == |s|
        invariant |s| > 0 ==> [0] in out
        invariant forall i | 0 <= i < t :: cur[i] == out[[0]].mean[i] && sd[i] == out[[0]].sd[i]
      {
        cur := cur[t := out[[0]].mean[t]];
        sd := sd[t := out[[0]].sd[t]];
        t := t + 1;
      }
    } else {
      var t := order;
      while t < |s|
        invariant order <= t && (t <= |s| || t == order)
        invariant |cur| == |s| && |sd| == |s|
        invariant forall i | 0 <= i < |s| && (i < order || i >= t) :: cur[i] == p0 && sd[i] == sd0
        invariant forall i | order <= i < t && i < |s| && Paused(s, order, nitem, i) :: cur[i] == p0 && sd[i] == sd0
        invariant forall i | order <= i < t && i < |s| && !Paused(s, order, nitem, i) ::
          NextKey(s, order, i) in out
          && cur[i] == out[NextKey(s, order, i)].mean[i] && sd[i] == out[NextKey(s, order, i)].sd[i]
      {
        if exists i | t - order + 1 <= i <= t :: s[i] == nitem {
          assert Paused(s, order, nitem, t);
          cur := cur[t := p0];
          sd := sd[t := sd0];
        } else {
          var key := s[t - order + 1..t + 1] + [0];
          assert key == NextKey(s, order, t);
          if key !in out {
            return Failure(MissingPattern);
          }
          cur := cur[t := out[key].mean[t]];
          sd := sd[t := out[key].sd[t]];
        }
        t := t + 1;
      }
    }
    r := Success((cur, sd));
  }

  /** The prediction for a trial made before seeing it: the base prediction
      on the first trial, then the current prediction of the trial before. */
  function PriorPrediction(current: seq<real>, p0: real): (r: seq<real>)
    ensures |r| == |current|
    ensures |r| > 0 ==> r[0] == p0
    ensures forall t | 1 <= t < |r| :: r[t] == current[t - 1]
  {
    if |current| == 0 then [] else [p0] + current[..|current| - 1]
  }

  /** Shifting back undoes the prior prediction: dropping its first entry
      and appending the last current value gives the current prediction. */
  lemma PriorPredictionShift(current: seq<real>, p0: real)
    requires |current| > 0
    ensures PriorPrediction(current, p0)[1..] + [current[|current| - 1]] == current
  {
    var r := PriorPrediction(current, p0);
    assert |r[1..] + [current[|current| - 1]]| == |current|;
    forall t | 0 <= t < |current| ensures (r[1..] + [current[|current| - 1]])[t] == current[t] {
      if t < |current| - 1 {
        assert r[1..][t] == r[t + 1];
      }
    }
  }

  /** `pr` holds the four prediction series of a binary alphabet: the
      current prediction and its SD derived from the base prediction
      (`BaseDirichlet` and its moments) and the posterior records `out`,
      and the prior prediction, which is the current one a trial late. */
  predicate PredictionsFrom(s: seq<int>, out: map<Pattern, Posterior>, order: nat, nitem: nat,
                            fixedPrior: Option<Value>, f: Transcendental, pr: Predictions)
    requires Aligned(out, |s|)
  {
    BaseDirichlet(order, fixedPrior).Success? &&
    var (a, b) := BaseDirichlet(order, fixedPrior).value;
    DirichletMoments(a, b, f).Success? &&
    var (p0, sd0) := DirichletMoments(a, b, f).value;
    && IsCurrentPrediction(s, out, order, nitem, p0, sd0, pr.currentP0, pr.currentSdP0)
    && pr.priorP0 == PriorPrediction(pr.currentP0, p0)
    && pr.priorSdP0 == PriorPrediction(pr.currentSdP0, sd0)
  }

  /** When the predictions can be made: always beyond two items (they are
      then absent); otherwise the base prior and its moments are defined
      and no lookup of the current prediction misses. */
  predicate PredictionsRunnable(s: seq<int>, out: map<Pattern, Posterior>, order: nat, nitem: nat,
                                fixedPrior: Option<Value>, f: Transcendental)
  {
    nitem > 2 || (
      BaseDirichlet(order, fixedPrior).Success? &&
      var (a, b) := BaseDirichlet(order, fixedPrior).value;
      DirichletMoments(a, b, f).Success? && !LookupMisses(s, out, order, nitem))
  }

  /** Adds the four prediction series. Beyond two items the series are
      absent; otherwise they are as `PredictionsFrom` describes, and the
      only failures are those of the base prediction and of the lookups.
      Nothing else in the output changes. */
  method AddPredictions(output: Output, s: seq<int>, order: nat, nitem: nat, fixedPrior: Option<Value>,
                        f: Transcendental)
    returns (r: Result<Output, Error>)
    requires Aligned(output.patterns, |s|)
    ensures nitem > 2 ==> r == Success(output.(predictions := None))
    ensures r.Failure? ==> r.error in {MissingPattern, InvalidDirichlet, BadOption("custom_prior")}
    ensures r.Success? ==> r.value.(predictions := output.predictions) == output
    ensures nitem <= 2 && r.Success? ==> r.value.predictions.Some?
    ensures nitem <= 2 && BaseDirichlet(order, fixedPrior).Failure? ==>
      r == Failure(BaseDirichlet(order, fixedPrior).error)
    ensures nitem <= 2 && BaseDirichlet(order, fixedPrior).Success? ==>
      var (a, b) := BaseDirichlet(order, fixedPrior).value;
      DirichletMoments(a, b, f).Failure? ==> r == Failure(InvalidDirichlet)
    ensures nitem <= 2 && r.Success? ==>
      PredictionsFrom(s, output.patterns, order, nitem, fixedPrior, f, r.value.predictions.value)
    ensures nitem <= 2 && r.Success? ==> !LookupMisses(s, output.patterns, order, nitem)
    ensures r.Success? <==> PredictionsRunnable(s, output.patterns, order, nitem, fixedPrior, f)
    ensures nitem <= 2 && BaseDirichlet(order, fixedPrior).Success? && !LookupMisses(s, output.patterns, order, nitem) ==>
      var (a, b) := BaseDirichlet(order, fixedPrior).value;
      DirichletMoments(a, b, f).Success? ==> r.Success?
  {
    if nitem > 2 {
      return Success(output.(predictions := None));
    }
    var base := BaseDirichlet(order, fixedPrior);
    if base.Failure? {
      return Failure(base.error);
    }
    var (a, b) := base.value;
    var moments := DirichletMoments(a, b, f);
    if moments.Failure? {
      return Failure(moments.error);
    }
    var (p0, sd0) := moments.value;
    var current := CurrentPrediction(s, output.patterns, order, nitem, p0, sd0);
    if current.Failure? {
      return Failure(current.error);
    }
    var (cur, sd) := current.value;
    var pr := Predictions(cur, sd, PriorPrediction(cur, p0), PriorPrediction(sd, sd0));
    r := Success(output.(predictions := Some(pr)));
  }
}
