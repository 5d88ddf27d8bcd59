/** The ideal-observer wrapper: resolves the options, infers the alphabet
    size, dispatches on the observer kind to the inference engine, and
    assembles the output record (MarkovModel/IdealObserver.py,
    `IdealObserver`). */
module Observer {
  import opened Wrappers
  import opened Types
  import opened Numerics
  import opened Options
  import opened PosteriorOutput
  import opened Surprise
  import opened Alpha
  import opened Divergence
  import opened Prediction

  datatype ObserverKind = Fixed | Hmm | HmmUncoupled | HmmFull | HmmUncoupledFull {
    /** The kinds that also marginalise over volatility. */
    predicate FullVolatility() {
      this == HmmFull || this == HmmUncoupledFull
    }
  }

  /** The observer kind named by `obsType`, matched without regard to
      case; any other name is unknown. */
  function ParseKind(obsType: string): (r: Result<ObserverKind, Error>)
    ensures r == Success(Fixed) <==> Lower(obsType) == "fixed"
    ensures r == Success(Hmm) <==> Lower(obsType) == "hmm"
    ensures r == Success(HmmUncoupled) <==> Lower(obsType) == "hmm_uncoupled"
    ensures r == Success(HmmFull) <==> Lower(obsType) == "hmm+full"
    ensures r == Success(HmmUncoupledFull) <==> Lower(obsType) == "hmm_uncoupled+full"
    ensures r.Failure? ==> r.error == UnknownObserver(obsType)
  {
    var name := Lower(obsType);
    if name == "fixed" then Success(Fixed)
    else if name == "hmm" then Success(Hmm)
    else if name == "hmm_uncoupled" then Success(HmmUncoupled)
    else if name == "hmm+full" then Success(HmmFull)
    else if name == "hmm_uncoupled+full" then Success(HmmUncoupledFull)
    else Failure(UnknownObserver(obsType))
  }

  /** Matching ignores case: a name and its lower-case form select the same
      kind. */
  lemma ParseKindIgnoresCase(obsType: string)
    ensures ParseKind(Lower(obsType)).Success? <==> ParseKind(obsType).Success?
    ensures ParseKind(obsType).Success? ==> ParseKind(Lower(obsType)) == ParseKind(obsType)
  {
    LowerIdempotent(obsType);
  }

  /** The number of distinct symbols of `s`. */
  function DistinctSymbols(s: seq<int>): nat {
    |set x | x in s|
  }

  /** The alphabet size: the given one, else the number of distinct symbols. */
  function InferNitem(s: seq<int>, nitem: Option<nat>): (n: nat)
    ensures nitem.Some? ==> n == nitem.value
    ensures nitem.None? ==> n == DistinctSymbols(s)
  {
    match nitem
    case Some(n) => n
    case None => DistinctSymbols(s)
  }

  /** A non-empty sequence has at least one and at most `|s|` distinct
      symbols. */
  lemma {:induction false} DistinctSymbolsBounds(s: seq<int>)
    ensures |s| > 0 ==> 1 <= DistinctSymbols(s)
    ensures DistinctSymbols(s) <= |s|
  {
    if |s| > 0 {
      DistinctSymbolsBounds(s[1..]);
      assert (set x | x in s) == {s[0]} + (set x | x in s[1..]);
    } else {
      assert (set x | x in s) == {};
    }
  }

  /** A sequence over the symbols 0 .. n-1 has at most `n` distinct symbols. */
  lemma DistinctSymbolsAlphabet(s: seq<int>, n: nat)
    requires forall i | 0 <= i < |s| :: 0 <= s[i] < n
    ensures DistinctSymbols(s) <= n
  {
    var symbols := set x | x in s;
    SubsetSize(symbols, Range(n));
  }

  lemma SubsetSize(a: set<int>, b: set<int>)
    requires a <= b
    ensures |a| <= |b|
  {
    assert b == a + (b - a);
  }

  /** The symbols 0 .. n-1. */
  function Range(n: nat): (r: set<int>)
    ensures forall x :: x in r <==> 0 <= x < n
    ensures |r| == n
  {
    if n == 0 then {} else Range(n - 1) + {n - 1}
  }

  /** What the volatility-marginalising engines return: the per-pattern
      grid posterior and the posterior over the volatility grid. */
  datatype VolatilityPosterior = VolatilityPosterior(
    margTheta: map<Pattern, seq<seq<real>>>,
    postNu: seq<seq<real>>)

  /** The inference engines the wrapper delegates to. Their internals are
      not part of this model; each is an arbitrary function of the
      arguments the wrapper hands it. */
  datatype Engines = Engines(
    // count_tuple(seq, order, Nitem, Decay, Window)
    countTuple: (seq<int>, nat, nat, Option<Value>, Option<Value>) -> map<Pattern, seq<real>>,
    // symetric_prior(order, Nitem, weight)
    symmetricPrior: (nat, nat, Value) -> map<Pattern, real>,
    // posterior_no_jump(count, prior, Nitem, order)
    posteriorNoJump: (map<Pattern, seq<real>>, Value, nat, nat) -> FixedPosterior,
    // compute_inference(seq, resol, order, Nitem, p_c), coupled change points
    hmmInference: (seq<int>, nat, nat, nat, Value) -> map<Pattern, seq<seq<real>>>,
    // convert_to_order0(seq, Nitem, order): one recoded sequence per condition, in key order
    convertToOrder0: (seq<int>, nat, nat) -> seq<(Pattern, seq<int>)>,
    // compute_inference(seq, resol, Nitem, p_c), one uncoupled condition
    uncoupledInference: (seq<int>, nat, nat, Value) -> map<Pattern, seq<seq<real>>>,
    // posterior_prediction(seq, order, Nitem, resol, grid_nu, prior_nu)
    volatilityInference: (seq<int>, nat, nat, nat, Value, Value) -> VolatilityPosterior,
    uncoupledVolatilityInference: (seq<int>, nat, nat, nat, Value, Value) -> VolatilityPosterior)

  /** The number of grid bins: a non-negative integer, as `linspace`
      demands. */
  function AsResol(v: Value): (r: Result<nat, Error>)
    ensures r.Success? <==> v.Int? && v.i >= 0
    ensures r.Success? ==> r.value == v.i
    ensures r.Failure? ==> r.error == BadOption("resol")
  {
    if v.Int? && v.i >= 0 then Success(v.i) else Failure(BadOption("resol"))
  }

  /** The grid posterior of the uncoupled observer, keyed by condition and
      item. */
  function UncoupledPosterior(s: seq<int>, nitem: nat, order: nat, resol: nat, pc: Value, e: Engines)
    : (post: map<Pattern, seq<seq<real>>>)
  {
    var conds := e.convertToOrder0(s, nitem, order);
    CombineUncoupled(seq(|conds|, i requires 0 <= i < |conds| =>
      (conds[i].0, e.uncoupledInference(conds[i].1, resol, nitem, pc))))
  }

  /** Normalises a grid posterior and scores the sequence with it. Arrays
      that do not have one row per trial and one weight per bin are
      rejected. */
  method FinishHmm(s: seq<int>, post: map<Pattern, seq<seq<real>>>, resol: nat, order: nat, f: Transcendental)
    returns (r: Result<(map<Pattern, Posterior>, seq<Option<real>>), Error>)
    ensures r.Failure? <==> !DistShaped(post, resol, |s|)
    ensures r.Failure? ==> r.error == ShapeMismatch
    ensures r.Success? ==> r.value.0 == FillOutputHmm(post, resol, f) && Aligned(r.value.0, |s|)
    ensures r.Success? ==> IsSurprise(s, r.value.0, order, f, r.value.1)
  {
    if !DistShaped(post, resol, |s|) {
      return Failure(ShapeMismatch);
    }
    var patterns := FillOutputHmm(post, resol, f);
    FillOutputHmmAligned(post, resol, |s|, f);
    var surprise := ComputeSurprise(s, patterns, order, f);
    r := Success((patterns, surprise));
  }

  /** The counts the fixed observer hands on: those of `count_tuple` under
      the decay or window the options select. */
  function FixedCount(s: seq<int>, order: nat, nitem: nat, cfg: Config, e: Engines): map<Pattern, seq<real>> {
    var (decay, window) := ParseFixedType(cfg);
    e.countTuple(s, order, nitem, decay, window)
  }

  /** What `posterior_no_jump` returns for those counts and the fixed
      observer's prior. */
  function FixedEnginePosterior(s: seq<int>, order: nat, nitem: nat, cfg: Config, e: Engines): FixedPosterior {
    e.posteriorNoJump(FixedCount(s, order, nitem, cfg, e), ParseFixedPrior(cfg, order, nitem, e.symmetricPrior),
                      nitem, order)
  }

  /** When the fixed observer returns an output: the engine's posterior
      has every record `FillOutputFixed` reads, its records and the counts
      cover every trial, the prior is a dictionary covering every pattern
      the alpha table reads, the alpha table is positive, and the alphabet
      has two or three items. */
  predicate FixedRunnable(s: seq<int>, order: nat, nitem: nat, cfg: Config, e: Engines) {
    var prior := ParseFixedPrior(cfg, order, nitem, e.symmetricPrior);
    var count := FixedCount(s, order, nitem, cfg, e);
    var filled := FillOutputFixed(FixedEnginePosterior(s, order, nitem, cfg, e));
    && filled.Success? && Aligned(filled.value, |s|)
    && CountsAligned(count, |s|)
    && prior.Table?
    && ComputeAlpha(count, prior.entries, order, nitem, |s|).Success?
    && TablePositive(ComputeAlpha(count, prior.entries, order, nitem, |s|).value)
    && (nitem == 2 || nitem == 3)
  }

  /** `out` carries what the fixed observer derives from the engines: the
      normalised `posterior_no_jump` records, the counts, the alpha table
      of those counts and the prior, the surprise as its Shannon surprise,
      its Bayesian surprise and the confidence-corrected surprise built
      from the Shannon surprise, the Bayesian surprise and the baseline
      entropy. */
  predicate FixedOutputFrom(s: seq<int>, order: nat, nitem: nat, cfg: Config, e: Engines, f: Transcendental,
                            out: Output)
  {
    var prior := ParseFixedPrior(cfg, order, nitem, e.symmetricPrior);
    var count := FixedCount(s, order, nitem, cfg, e);
    && out.fixed.Some?
    && prior.Table?
    && CountsAligned(count, |s|)
    && FillOutputFixed(FixedEnginePosterior(s, order, nitem, cfg, e)) == Success(out.patterns)
    && |out.surprise| == |s|
    && out.fixed.value.count == count
    && out.fixed.value.shannon == out.surprise
    && ComputeAlpha(count, prior.entries, order, nitem, |s|) == Success(out.fixed.value.alphas)
    && TableShaped(out.fixed.value.alphas, |s|, nitem)
    && TablePositive(out.fixed.value.alphas)
    && KL(out.fixed.value.alphas, |s|, nitem, f) == Success(out.fixed.value.bayesian)
    && H0(out.fixed.value.alphas, |s|, nitem, f).Success?
    && ConfidenceCorrected(out.surprise, out.fixed.value.bayesian, H0(out.fixed.value.alphas, |s|, nitem, f).value,
                           nitem, f) == Success(out.fixed.value.confidenceCorrected)
  }

  /** A change-point observer's parameters and engine run: the resolution
      it checked, the grid posterior of the engine of its kind (coupled or
      uncoupled), and for the volatility kinds the engine's posterior over
      the volatility grid. */
  function HmmEngineRun(kind: ObserverKind, s: seq<int>, order: nat, nitem: nat, cfg: Config, e: Engines,
                        f: Transcendental): Result<(nat, map<Pattern, seq<seq<real>>>, Option<seq<seq<real>>>), Error>
    requires kind != Fixed
  {
    if !kind.FullVolatility() then
      var param :- ParseHmmParam(cfg);
      var resol :- AsResol(param.0);
      var post := if kind == Hmm then e.hmmInference(s, resol, order, nitem, param.1)
                  else UncoupledPosterior(s, nitem, order, resol, param.1, e);
      Success((resol, post, None))
    else
      var param :- ParseHmmFull(cfg, f);
      var resol :- AsResol(param.0);
      var res := if kind == HmmFull then e.volatilityInference(s, order, nitem, resol, param.1, param.2)
                 else e.uncoupledVolatilityInference(s, order, nitem, resol, param.1, param.2);
      Success((resol, res.margTheta, Some(res.postNu)))
  }

  /** When a change-point observer returns an output: its parameters
      resolve and the engine's grid posterior has one row per trial and one
      weight per bin. */
  predicate HmmRunnable(kind: ObserverKind, s: seq<int>, order: nat, nitem: nat, cfg: Config, e: Engines,
                        f: Transcendental)
    requires kind != Fixed
  {
    var run := HmmEngineRun(kind, s, order, nitem, cfg, e, f);
    run.Success? && DistShaped(run.value.1, run.value.0, |s|)
  }

  /** `out` carries what a change-point observer derives from the engine of
      its kind: the grid posterior normalised over the grid of the
      configured resolution, and the volatility posterior of the volatility
      kinds. */
  predicate HmmOutputFrom(kind: ObserverKind, s: seq<int>, order: nat, nitem: nat, cfg: Config, e: Engines,
                          f: Transcendental, out: Output)
    requires kind != Fixed
  {
    HmmRunnable(kind, s, order, nitem, cfg, e, f) &&
    var (resol, post, volatility) := HmmEngineRun(kind, s, order, nitem, cfg, e, f).value;
    && out.patterns == FillOutputHmm(post, resol, f)
    && out.volatility == volatility
  }

  /** The fixed observer up to, but not including, the predictions. */
  method RunFixed(s: seq<int>, order: nat, nitem: nat, cfg: Config, e: Engines, f: Transcendental)
    returns (r: Result<Output, Error>, prior: Value)
    ensures prior == ParseFixedPrior(cfg, order, nitem, e.symmetricPrior)
    ensures r.Success? ==> Aligned(r.value.patterns, |s|) && IsSurprise(s, r.value.patterns, order, f, r.value.surprise)
    ensures r.Success? ==> r.value.fixed.Some? && r.value.volatility.None? && r.value.predictions.None?
    ensures r.Success? ==> nitem == 2 || nitem == 3
    ensures r.Success? ==> r.value.fixed.value.shannon == r.value.surprise
    ensures r.Success? ==> |r.value.fixed.value.bayesian| == |s| && |r.value.fixed.value.confidenceCorrected| == |s|
    ensures r.Success? && |s| > 0 ==> r.value.fixed.value.bayesian[0].None?
    ensures r.Success? ==> forall t | 0 <= t < |s| ::
      r.value.fixed.value.confidenceCorrected[t].Some? <==> t >= 1 && r.value.surprise[t].Some?
    ensures r.Success? ==> |r.value.fixed.value.alphas| == Pow(nitem, order) == |Tuples(order, nitem)|
    ensures r.Success? ==> forall i | 0 <= i < |r.value.fixed.value.alphas| ::
      r.value.fixed.value.alphas[i].context == Tuples(order, nitem)[i]
    ensures r.Success? ==> FixedOutputFrom(s, order, nitem, cfg, e, f, r.value)
    ensures r.Success? <==> FixedRunnable(s, order, nitem, cfg, e)
  {
    prior := ParseFixedPrior(cfg, order, nitem, e.symmetricPrior);
    var count := FixedCount(s, order, nitem, cfg, e);
    var post := FixedEnginePosterior(s, order, nitem, cfg, e);
    var filled := FillOutputFixed(post);
    if filled.Failure? {
      return Failure(filled.error), prior;
    }
    var patterns := filled.value;
    if !Aligned(patterns, |s|) || !CountsAligned(count, |s|) {
      return Failure(ShapeMismatch), prior;
    }
    var surprise := ComputeSurprise(s, patterns, order, f);
    if !prior.Table? {
      return Failure(BadOption("custom_prior")), prior;
    }
    var alphas := ComputeAlpha(count, prior.entries, order, nitem, |s|);
    if alphas.Failure? {
      return Failure(alphas.error), prior;
    }
    var table := alphas.value;
    TuplesLength(order, nitem);
    if nitem > 0 {
      PowPositive(nitem, order);
    }
    assert TableShaped(table, |s|, nitem);
    if !TablePositive(table) {
      return Failure(InvalidDirichlet), prior;
    }
    var bayesian := KL(table, |s|, nitem, f);
    if bayesian.Failure? {
      return Failure(bayesian.error), prior;
    }
    var h0 := H0(table, |s|, nitem, f);
    var cc := ConfidenceCorrected(surprise, bayesian.value, h0.value, nitem, f);
    if cc.Failure? {
      return Failure(cc.error), prior;
    }
    var metrics := FixedMetrics(count, table, surprise, bayesian.value, cc.value);
    r := Success(Output(patterns, surprise, Some(metrics), None, None));
  }

  /** The four change-point observers up to, but not including, the
      predictions: resolve the parameters of the kind, run its engine and
      normalise the grid posterior. */
  method RunHmm(kind: ObserverKind, s: seq<int>, order: nat, nitem: nat, cfg: Config, e: Engines, f: Transcendental)
    returns (r: Result<Output, Error>)
    requires kind != Fixed
    ensures r.Success? ==> Aligned(r.value.patterns, |s|) && IsSurprise(s, r.value.patterns, order, f, r.value.surprise)
    ensures r.Success? ==> r.value.fixed.None? && r.value.predictions.None?
    ensures r.Success? ==> (r.value.volatility.Some? <==> kind.FullVolatility())
    ensures r.Success? ==> forall k | k in r.value.patterns :: r.value.patterns[k].summary.Binned?
    ensures !kind.FullVolatility() ==> ("p_c" !in cfg <==> r == Failure(MissingOption("p_c")))
    ensures kind.FullVolatility() && r.Failure? ==> r.error != MissingOption("p_c")
    ensures r.Success? ==> HmmOutputFrom(kind, s, order, nitem, cfg, e, f, r.value)
    ensures r.Success? <==> HmmRunnable(kind, s, order, nitem, cfg, e, f)
  {
    var post: map<Pattern, seq<seq<real>>>;
    var resol: nat;
    var volatility: Option<seq<seq<real>>> := None;
    if !kind.FullVolatility() {
      var param := ParseHmmParam(cfg);
      if param.Failure? {
        return Failure(param.error);
      }
      var checked := AsResol(param.value.0);
      if checked.Failure? {
        return Failure(checked.error);
      }
      resol := checked.value;
      if kind == Hmm {
        post := e.hmmInference(s, resol, order, nitem, param.value.1);
      } else {
        post := UncoupledPosterior(s, nitem, order, resol, param.value.1, e);
      }
    } else {
      var param := ParseHmmFull(cfg, f);
      if param.Failure? {
        return Failure(param.error);
      }
      var checked := AsResol(param.value.0);
      if checked.Failure? {
        return Failure(checked.error);
      }
      resol := checked.value;
      var res: VolatilityPosterior;
      if kind == HmmFull {
        res := e.volatilityInference(s, order, nitem, resol, param.value.1, param.value.2);
      } else {
        res := e.uncoupledVolatilityInference(s, order, nitem, resol, param.value.1, param.value.2);
      }
      post := res.margTheta;
      volatility := Some(res.postNu);
    }
    var finished := FinishHmm(s, post, resol, order, f);
    if finished.Failure? {
      return Failure(finished.error);
    }
    r := Success(Output(finished.value.0, finished.value.1, None, volatility, None));
  }

  /** The prior the base prediction reads: the fixed observer's own prior,
      none for the change-point observers. */
  function FixedPriorOf(kind: ObserverKind, order: nat, nitem: nat, cfg: Config, e: Engines): (r: Option<Value>)
    ensures r.Some? <==> kind == Fixed
    ensures r.Some? ==> r.value == ParseFixedPrior(cfg, order, nitem, e.symmetricPrior)
  {
    if kind == Fixed then Some(ParseFixedPrior(cfg, order, nitem, e.symmetricPrior)) else None
  }

  /** When the wrapper returns an output for a recognised kind: the run of
      that kind succeeds and the predictions can be made from its records. */
  predicate Runnable(kind: ObserverKind, s: seq<int>, order: nat, nitem: nat, cfg: Config, e: Engines,
                     f: Transcendental)
  {
    if kind == Fixed then
      FixedRunnable(s, order, nitem, cfg, e) &&
      PredictionsRunnable(s, FillOutputFixed(FixedEnginePosterior(s, order, nitem, cfg, e)).value, order, nitem,
                          FixedPriorOf(kind, order, nitem, cfg, e), f)
    else
      HmmRunnable(kind, s, order, nitem, cfg, e, f) &&
      var (resol, post, _) := HmmEngineRun(kind, s, order, nitem, cfg, e, f).value;
      PredictionsRunnable(s, FillOutputHmm(post, resol, f), order, nitem, None, f)
  }

  /** The wrapper. `options` is the options dictionary as an association
      list, None when omitted; `e` and `f` stand for the inference engines
      and the special functions. The output of every kind carries the
      surprise series; the fixed kind adds its counts, alpha table and
      information measures, the volatility kinds add the volatility
      posterior, and binary alphabets add the predictions. */
  method IdealObserver(s: seq<int>, obsType: string, order: nat, nitem: Option<nat>,
                       options: Option<OptionList>, e: Engines, f: Transcendental)
    returns (r: Result<Output, Error>)
    ensures ParseKind(obsType).Failure? ==> r == Failure(UnknownObserver(obsType))
    ensures r.Success? ==> ParseKind(obsType).Success?
    ensures ParseKind(obsType).Success? ==>
      (r.Success? <==> Runnable(ParseKind(obsType).value, s, order, InferNitem(s, nitem), ResolveOptions(options), e, f))
    ensures r.Success? ==> Aligned(r.value.patterns, |s|)
    ensures r.Success? ==> IsSurprise(s, r.value.patterns, order, f, r.value.surprise)
    ensures r.Success? ==> (r.value.fixed.Some? <==> ParseKind(obsType).value == Fixed)
    ensures r.Success? ==> (r.value.volatility.Some? <==> ParseKind(obsType).value.FullVolatility())
    ensures r.Success? ==> (r.value.predictions.None? <==> InferNitem(s, nitem) > 2)
    ensures ParseKind(obsType) == Success(Hmm) || ParseKind(obsType) == Success(HmmUncoupled) ==>
      ("p_c" !in ResolveOptions(options) <==> r == Failure(MissingOption("p_c")))
    ensures r.Success? && ParseKind(obsType).value == Fixed ==>
      InferNitem(s, nitem) == 2 || InferNitem(s, nitem) == 3
    ensures r.Success? && ParseKind(obsType).value != Fixed ==>
      forall k | k in r.value.patterns :: r.value.patterns[k].summary.Binned?
    ensures r.Success? && ParseKind(obsType).value == Fixed ==>
      FixedOutputFrom(s, order, InferNitem(s, nitem), ResolveOptions(options), e, f, r.value)
    ensures r.Success? && ParseKind(obsType).value != Fixed ==>
      HmmOutputFrom(ParseKind(obsType).value, s, order, InferNitem(s, nitem), ResolveOptions(options), e, f, r.value)
    ensures r.Success? && InferNitem(s, nitem) <= 2 ==>
      PredictionsFrom(s, r.value.patterns, order, InferNitem(s, nitem), FixedPriorOf(ParseKind(obsType).value, order,
                      InferNitem(s, nitem), ResolveOptions(options), e), f, r.value.predictions.value)
  {
    var cfg := ResolveOptions(options);
    var n := InferNitem(s, nitem);
    var parsed := ParseKind(obsType);
    if parsed.Failure? {
      return Failure(parsed.error);
    }
    var kind := parsed.value;
    var out: Output;
    var fixedPrior: Option<Value> := None;
    if kind == Fixed {
      var run, prior := RunFixed(s, order, n, cfg, e, f);
      if run.Failure? {
        return run;
      }
      out := run.value;
      fixedPrior := Some(prior);
    } else {
      var run := RunHmm(kind, s, order, n, cfg, e, f);
      if run.Failure? {
        return run;
      }
      out := run.value;
    }
    r := AddPredictions(out, s, order, n, fixedPrior, f);
  }
}
