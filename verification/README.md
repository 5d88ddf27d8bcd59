# Ideal-observer wrapper: bookkeeping model

This project models the deterministic layer of `MarkovModel/IdealObserver.py`,
the wrapper that runs one of five ideal observers on a sequence of integer
symbols and assembles its output record. The layer covers:

- normalising the options dictionary, resolving each observer's parameters and
  applying their defaults;
- inferring the alphabet size and dispatching on the observer kind, matched
  without regard to case;
- turning an engine's posterior into one record per pattern. For the
  change-point observers that record holds the posterior mean and SD over the
  grid `linspace(0, 1, resol)`;
- the surprise series;
- for the fixed observer: the alpha table (count plus prior weight for every
  context and next item), Bayesian surprise (summed Dirichlet KL divergences
  between consecutive trials), baseline entropy and confidence-corrected
  surprise;
- the binary predictions of item 0: the current prediction, and the prior
  prediction, which is the current prediction one trial late.

Modelling choices:

- Inference engines are fields of `Observer.Engines`. Each is an arbitrary
  function of the arguments the wrapper passes it.
- The special functions (log2, ln, sqrt, 2^x, log-gamma, digamma, Dirichlet
  entropy) are fields of `Numerics.Transcendental`. Nothing proved depends on
  what they compute.
- NaN is `None` in a `seq<Option<real>>`. NumPy's NaN-propagating sums are
  `OptAdd` and `ColumnSum`.
- A raised exception is a `Failure` carrying an `Error`.
- The input options dictionary is an association list in insertion order. The
  alpha table is a sequence of entries in `itertools.product` order.
- Grid posteriors are stored trial-major (`dist[t][bin]`). The original stores
  bins × trials and transposes.

Facts about the code that the model follows:

- The Bayesian surprise of trial j compares trial j−1 with trial j, i.e.
  `KL_dirichlet(alpha[j-1], alpha[j])` (MarkovModel/IdealObserver.py:377-378).
- The pause test of the current prediction looks at the last `order` symbols,
  `seq[t-order+1:t+1]` (MarkovModel/IdealObserver.py:315).
- Only the observer names `fixed`, `hmm`, `hmm_uncoupled`, `hmm+full` and
  `hmm_uncoupled+full` are dispatched on (MarkovModel/IdealObserver.py:50-119).
  Any other name leaves the output unbound in the original, including the
  `Decay` and `window` that the docstring lists
  (MarkovModel/IdealObserver.py:35). Here it is `Failure(UnknownObserver)`.
- Omitted options (`options=None`) make the original raise (see "## Findings").
  The model's wrapper uses the corrected normalisation, `Options.ResolveOptions`,
  so omitted options behave as an empty dictionary.

Modules, one per file: `Wrappers`, `Types`, `Numerics`, `Options`,
`PosteriorOutput`, `Surprise`, `Alpha`, `Divergence`, `Prediction`, `Observer`.

## Model

| member | source | states |
|---|---|---|
| Options.CheckOptions | MarkovModel/IdealObserver.py:186-192 | The keys are exactly the lower-cased input keys. The entry that is last among those sharing its lower-case key supplies that key's value, so a later key wins on collision. |
| Options.LowerIdempotent | MarkovModel/IdealObserver.py:189-190 | Lower-casing a lower-cased key changes nothing. |
| Options.CheckOptionsAsWritten | MarkovModel/IdealObserver.py:186-192 | Normalisation as written fails exactly when the options are omitted (None). Otherwise it gives the normalised dictionary. |
| Options.OmittedOptionsRejected | MarkovModel/IdealObserver.py:30-45 | Calling the wrapper without options, which its default allows, fails in the normalisation. |
| Options.ResolveOptions | MarkovModel/IdealObserver.py:30-45 | Corrected normalisation: omitted options give the empty configuration. Supplied options give what the as-written normalisation gives. |
| Options.OmittedOptionsAreEmpty | MarkovModel/IdealObserver.py:30-45 | Omitting the options is the same as passing an empty dictionary. |
| Options.ParseFixedType | MarkovModel/IdealObserver.py:137-144 | Decay and window are never both set. Decay is set iff `decay` is configured. Window is set iff `window` is configured and `decay` is not. |
| Options.ResolOrDefault | MarkovModel/IdealObserver.py:146-150 | The resolution is the configured one, else 10. |
| Options.ParseHmmParam | MarkovModel/IdealObserver.py:146-155 | Fails with a missing-`p_c` error iff `p_c` is absent. Otherwise it gives the defaulted resolution and `p_c`. |
| Options.Uniform | MarkovModel/IdealObserver.py:165-170 | `n` weights, each equal to `1/n`, that for `n > 0` form a probability distribution. |
| Options.UniformSum | MarkovModel/IdealObserver.py:165-170 | The first `k` of `n` equal weights sum to `k/n`. |
| Options.DefaultVolatilityGrid | MarkovModel/IdealObserver.py:168-169 | The default grid has 20 points, point k being 2^(-k/2). |
| Options.ParseHmmFull | MarkovModel/IdealObserver.py:156-170 | Without `grid_nu`: the 20-point default grid and a uniform prior of length 20, whatever `prior_nu` says. With `grid_nu`: that grid, and `prior_nu` if given, else a uniform prior of the grid's length. It fails only when that length cannot be taken. |
| Options.ParseFixedPrior | MarkovModel/IdealObserver.py:171-181 | A symmetric prior of weight `prior_weight` when configured. Else `custom_prior`. Else a symmetric prior of weight 1. |
| PosteriorOutput.FillOutputFixed | MarkovModel/IdealObserver.py:62-68 | One record per key of the mean table, holding that key's mean, SD and mode. Fails iff a key is missing from the mode or SD table. |
| PosteriorOutput.Grid | MarkovModel/IdealObserver.py:260-260 | `resol` points; for `resol > 1`, point i is i/(resol−1), so the points lie in [0, 1], increase strictly and run from 0 to 1. |
| PosteriorOutput.MeanOfDist | MarkovModel/IdealObserver.py:195-197 | One mean per trial: the grid weighted by that trial's bin weights. |
| PosteriorOutput.SdOfDist | MarkovModel/IdealObserver.py:200-204 | One SD per trial: the root of second moment minus squared mean. |
| PosteriorOutput.FillOutputHmm | MarkovModel/IdealObserver.py:255-266 | Same keys as the posterior. Each key's distribution is kept unchanged. Per trial, mean = Σ dist[i]·grid[i] and SD = sqrt(Σ dist[i]·grid[i]² − mean²). |
| PosteriorOutput.FillOutputHmmAligned | MarkovModel/IdealObserver.py:255-266 | A posterior with one row per trial gives records aligned with the sequence. |
| PosteriorOutput.MeanIsProbability | MarkovModel/IdealObserver.py:195-197 | The mean of a genuine distribution over the grid lies in [0, 1]. |
| PosteriorOutput.VarianceNonNegative | MarkovModel/IdealObserver.py:200-204 | The quantity under the root equals the weighted squared spread around the mean, so it is non-negative for a distribution. |
| PosteriorOutput.PointMassMoments | MarkovModel/IdealObserver.py:195-204 | All mass on bin i gives mean grid[i] and zero variance. |
| PosteriorOutput.Tag | MarkovModel/IdealObserver.py:102-103 | Every item key of a condition becomes condition+item with the same posterior. Every produced key splits back into the condition and an item key. |
| PosteriorOutput.CombineUncoupledKeysProduced | MarkovModel/IdealObserver.py:96-103 | Every key of the uncoupled posterior is some condition's label followed by one of its item keys. |
| PosteriorOutput.CombineUncoupledKeysComplete | MarkovModel/IdealObserver.py:96-103 | Every label-item concatenation is a key of the uncoupled posterior. |
| PosteriorOutput.CombineUncoupledLastWins | MarkovModel/IdealObserver.py:96-103 | A key holds the posterior of the last condition producing it. |
| Surprise.FirstScored | MarkovModel/IdealObserver.py:213-219 | Scoring starts at trial max(order, 1). |
| Surprise.ComputeSurprise | MarkovModel/IdealObserver.py:207-222 | One entry per trial. Entry t is defined iff t ≥ 1, t ≥ order and the pattern `seq[t-order..t]` has a posterior. It is then −log2 of that pattern's mean on trial t−1. |
| Surprise.SurpriseUnique | MarkovModel/IdealObserver.py:207-222 | That description determines the series uniquely. |
| Surprise.SurpriseNonNegative | MarkovModel/IdealObserver.py:216-222 | With means in (0, 1] and log2 non-positive there, every defined surprise is ≥ 0. |
| Surprise.SurpriseCausal | MarkovModel/IdealObserver.py:207-222 | The surprise of trial t depends only on the symbols up to t. |
| Alpha.TuplesLength | MarkovModel/IdealObserver.py:233-233 | The context enumeration has Nitem^order tuples. |
| Alpha.TuplesMember | MarkovModel/IdealObserver.py:233-233 | A pattern is enumerated iff it is a tuple of `order` symbols below Nitem. |
| Alpha.TuplesMembers | MarkovModel/IdealObserver.py:233-233 | The enumeration holds exactly the tuples of `order` symbols below Nitem. |
| Alpha.TuplesDistinct | MarkovModel/IdealObserver.py:233-233 | No context is enumerated twice. |
| Alpha.ExtendMember | MarkovModel/IdealObserver.py:238-239 | Extending contexts by a next item gives exactly context-then-item patterns. |
| Alpha.ComputeAlpha | MarkovModel/IdealObserver.py:225-241 | Fails with a missing-pattern error iff some pattern of order+1 symbols lacks a count or a prior weight. Otherwise it gives one T×Nitem entry per context in enumeration order, with alpha[p][t][s] = count[p+(s)][t] + prior[p+(s)]. |
| Alpha.AlphaContexts | MarkovModel/IdealObserver.py:233-241 | The table has exactly one entry for each of the Nitem^order contexts. |
| Alpha.AlphaPositive | MarkovModel/IdealObserver.py:238-241 | Non-negative counts and positive prior weights make every alpha positive, which the divergence requires. |
| Divergence.KLDirichletSelf | MarkovModel/IdealObserver.py:362-364 | The closed-form divergence of a Dirichlet distribution from itself is 0, whatever the special functions are. |
| Divergence.KL | MarkovModel/IdealObserver.py:369-380 | Fails iff the table has no context. Otherwise trial 0 is undefined, and trial j ≥ 1 is the sum over contexts of KL(alpha[j−1] ‖ alpha[j]). |
| Divergence.KLStatic | MarkovModel/IdealObserver.py:369-380 | Where no context's parameters changed between consecutive trials, the Bayesian surprise is 0. |
| Divergence.TrialKLStatic | MarkovModel/IdealObserver.py:369-380 | When every context keeps its parameters from one trial to the next, the per-context divergences of that trial add up to 0. |
| Divergence.KLAdditive | MarkovModel/IdealObserver.py:369-372 | KL over the union of two sets of contexts is the sum of the two results. |
| Divergence.H0 | MarkovModel/IdealObserver.py:383-394 | Fails iff the table has no context. Otherwise every trial is defined, and equals the sum over contexts of the Dirichlet entropy. |
| Divergence.H0Additive | MarkovModel/IdealObserver.py:383-386 | The baseline entropy is additive over disjoint sets of contexts. |
| Divergence.PHat | MarkovModel/IdealObserver.py:249-249 | Chance levels exist exactly for two items (1/2) and three items (1/24), and lie in (0, 1). |
| Divergence.ConfidenceCorrected | MarkovModel/IdealObserver.py:248-252 | Fails iff Nitem ∉ {2, 3}. Otherwise entry t is defined iff Shannon, Bayesian and baseline are all defined, and equals shannon + bayesian − h0 + ln(p̂). |
| Prediction.PriorWeight | MarkovModel/IdealObserver.py:288-289 | A prior weight is found iff the prior is a dictionary holding the pattern. |
| Prediction.BaseDirichlet | MarkovModel/IdealObserver.py:284-299 | Only the fixed observer at order 0 uses its prior's weights for (0,) and (1,), failing when one is missing. Every other case uses (1, 1). |
| Prediction.DirichletMoments | MarkovModel/IdealObserver.py:300-301 | Fails iff a parameter is not positive. Otherwise the mean a/(a+b) lies in (0, 1), and the SD is sqrt(ab/((a+b)²(a+b+1))). |
| Prediction.FlatPriorMoments | MarkovModel/IdealObserver.py:298-301 | The flat prior predicts 1/2 with SD sqrt(1/12). |
| Prediction.NextKey | MarkovModel/IdealObserver.py:320-323 | The lookup key is the last `order` symbols followed by item 0. |
| Prediction.CurrentPrediction | MarkovModel/IdealObserver.py:306-323 | Fails iff a needed lookup misses. At order 0 it is the posterior of (0,) on every trial. At higher orders it is the base prediction before `order` trials and wherever a pause code falls among the last `order` symbols. Elsewhere it is the posterior of `NextKey`. |
| Prediction.PriorPrediction | MarkovModel/IdealObserver.py:325-329 | The prior prediction is the base value on trial 0 and the current prediction of trial t−1 on trial t. |
| Prediction.PriorPredictionShift | MarkovModel/IdealObserver.py:325-329 | Shifting the prior prediction back recovers the current prediction. |
| Prediction.AddPredictions | MarkovModel/IdealObserver.py:269-331 | Beyond two items all four series are None. In every case nothing else in the output changes. Otherwise base-prior and moment failures are propagated, and it succeeds iff those succeed and no lookup misses (`PredictionsRunnable`). The current series is, trial by trial, the posterior of (0,) at order 0, the base prediction before `order` trials and after a pause, and the `NextKey` posterior elsewhere (`PredictionsFrom`). The prior series are the current series one trial late. |
| Observer.ParseKind | MarkovModel/IdealObserver.py:50-119 | Each of the five kinds is selected iff the lower-cased name equals its name. Anything else is an unknown observer. |
| Observer.ParseKindIgnoresCase | MarkovModel/IdealObserver.py:50-119 | A name and its lower-case form select the same kind. |
| Observer.InferNitem | MarkovModel/IdealObserver.py:47-48 | The alphabet size is the given one, else the number of distinct symbols. |
| Observer.DistinctSymbolsBounds | MarkovModel/IdealObserver.py:47-48 | A non-empty sequence has between 1 and `len(seq)` distinct symbols. |
| Observer.DistinctSymbolsAlphabet | MarkovModel/IdealObserver.py:47-48 | A sequence over 0..n−1 has at most n distinct symbols. |
| Observer.AsResol | MarkovModel/IdealObserver.py:260-260 | The resolution is accepted iff it is a non-negative integer. |
| Observer.FinishHmm | MarkovModel/IdealObserver.py:84-85 | Fails iff the grid posterior is not one row per trial of one weight per bin. Otherwise it gives the normalised records and their surprise series. |
| Observer.RunFixed | MarkovModel/IdealObserver.py:50-74 | Succeeds iff `FixedRunnable` holds: the engine's posterior has every record read, records and counts cover every trial, the prior is a dictionary covering every pattern the alpha table reads, the table is positive, and Nitem ∈ {2, 3}. On success: the records are the normalised `posterior_no_jump` output for the `count_tuple` counts under the selected decay or window; the reported counts are those counts; the alpha table is `ComputeAlpha` of the counts and prior; Bayesian surprise is `KL` of that table; shannon is the surprise series, and confidence-corrected surprise is `ConfidenceCorrected` of shannon, Bayesian surprise and `H0` (`FixedOutputFrom`). Also: Bayesian surprise is undefined on trial 0, confidence-corrected surprise is defined exactly where t ≥ 1 and surprise is, and there are Nitem^order alpha entries in enumeration order. |
| Observer.RunHmm | MarkovModel/IdealObserver.py:76-127 | For the known-volatility kinds it fails with a missing-`p_c` error iff `p_c` is absent. It succeeds iff `HmmRunnable` holds: the parameters resolve and the engine's grid posterior has one row per trial and one weight per bin. On success the records are `FillOutputHmm` of the selected kind's engine output over the configured resolution: `compute_inference` for `hmm`, the per-condition uncoupled inference combined by condition label for `hmm_uncoupled`, and the marginal posterior of the coupled or uncoupled volatility engine for the `+full` kinds. Those kinds also report the engine's `post_nu` as the volatility posterior, and the others report none (`HmmOutputFrom`). |
| Observer.IdealObserver | MarkovModel/IdealObserver.py:30-130 | An unknown kind fails. For a recognised kind it succeeds iff `Runnable` holds: that kind's run succeeds (`FixedRunnable` or `HmmRunnable`) and the predictions can be made from its records (`PredictionsRunnable`). On success: records are aligned with the sequence; the surprise meets its description; fixed-only fields are present iff the kind is fixed; volatility is present iff the kind is a `+full` kind; predictions are absent iff Nitem > 2. The output is what `FixedOutputFrom` (including shannon = surprise) or `HmmOutputFrom` describes for the selected kind, and the predictions are what `PredictionsFrom` describes. Options are normalised by `ResolveOptions`, so omitted options run on the defaults, where the original raises at line 190 (see "## Findings"). |

## Left out

- The five inference modules are fields of `Observer.Engines`: their internals are not shown, and every stated property holds for any engine behaviour. They provide count_tuple, posterior_no_jump, symetric_prior, convert_to_order0 and the compute_inference/posterior_prediction variants.
- Floating point, NaN arithmetic and the SciPy/NumPy special functions are modelled as exact reals and uninterpreted functions. `dirichlet.mean` and `dirichlet.var` are written out in closed form (`Prediction.DirichletMoments`).
- NumPy broadcasting is not modelled. An engine that returns series not covering every trial, or a grid posterior whose shape does not match `resol` × trials, is reported as `ShapeMismatch` up front. The original would fail later, or in some cases not at all.
- A custom prior that is not a dictionary is rejected (`BadOption("custom_prior")`). NumPy would index an array prior by one-element tuples.
- The resolution is checked to be a non-negative integer before the engines run. The original hands it to the engine first and fails only in `linspace`.
- Positivity of the alpha table is checked once, before the divergences (`InvalidDirichlet`). In the original, a table with at least two trials and a non-positive parameter fails the assertion in `KL_dirichlet`. On a single-trial table `KL_dirichlet` is never called (the loop over `range(1, 1)` is empty), and only SciPy's check in `dirichlet.entropy` raises. Either way the original raises exactly when some parameter is not positive, as the model does.
- `Observer.IdealObserver` normalises omitted options as an empty dictionary (the corrected `Options.ResolveOptions`). The original raises `AttributeError` there (see "## Findings").
- The fixed observer also writes `order` and `Nitem` into the options dictionary so that the later prior lookup can find them. The model passes both values directly, with the same effect.
- `Options.Lower` folds only the ASCII letters A–Z. Python's `str.lower` also folds other Unicode letters, which no option name of the program uses.
- `compute_alpha`'s own default for `Nitem` is not modelled, because the wrapper always passes it.

## Findings

| source | as written | input that shows it | evidently intended | confidence | as-written member | corrected member |
|---|---|---|---|---|---|---|
| MarkovModel/IdealObserver.py:186-192 | `check_options` loops over `options.keys()`, but the wrapper's keyword default for `options` is None | any call that omits `options`, e.g. `IdealObserver(seq, 'fixed')` | omitted options behave as an empty dictionary, so the fixed observer runs on its defaults | not executed | Options.CheckOptionsAsWritten | Options.ResolveOptions |
