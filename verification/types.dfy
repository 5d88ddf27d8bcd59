/** The entities the ideal-observer wrapper passes between its stages. */
module Types {
  import opened Wrappers

  /** A pattern or a context: a tuple of symbol codes. Patterns used for
      counting have `order + 1` entries, contexts have `order`. */
  type Pattern = seq<int>

  /** A value found in the options dictionary. */
  datatype Value =
    | Int(i: int)
    | Real(r: real)
    | Reals(rs: seq<real>)
    | Table(entries: map<Pattern, real>)

  /** The options dictionary once its keys have been normalised. */
  type Config = map<string, Value>

  /** The options dictionary as the caller passes it: its entries in
      insertion order, keys not yet normalised. */
  type OptionList = seq<(string, Value)>

  /** The ways the wrapper fails. Each stands for an exception that
      `IdealObserver.py` raises, except `ShapeMismatch`, reported where NumPy
      would fail later or not at all, and `UnknownObserver`, which stands
      for the unbound output an unrecognised kind leaves. */
  datatype Error =
    | OptionsMissing               // options left at None: `None.keys()`
    | MissingOption(name: string)  // a required option is absent
    | BadOption(name: string)      // an option value of an unusable kind
    | MissingPattern               // lookup of an absent pattern key
    | ShapeMismatch                // a collaborator returned misaligned arrays
    | InvalidDirichlet             // a Dirichlet parameter that is not positive
    | UnsupportedAlphabet(nitem: nat)
    | UnknownObserver(name: string)
    | NoContexts                   // an alpha table without any context

  /** The third part of a posterior record: the closed-form mode (fixed
      observer) or the grid distribution, one row of bin weights per trial
      (change-point observers). */
  datatype Summary = Mode(modes: seq<real>) | Binned(dist: seq<seq<real>>)

  /** The posterior record of one pattern, indexed by trial. */
  datatype Posterior = Posterior(mean: seq<real>, sd: seq<real>, summary: Summary)

  /** Every posterior record has a mean and a SD value for each of the `T` trials. */
  predicate Aligned(out: map<Pattern, Posterior>, T: nat) {
    forall k | k in out :: |out[k].mean| == T && |out[k].sd| == T
  }

  /** The Dirichlet parameters of one context: one row per trial, one
      column per possible next item. */
  datatype AlphaEntry = AlphaEntry(context: Pattern, rows: seq<seq<real>>)

  /** The alpha table, in the order its contexts were enumerated. */
  type AlphaTable = seq<AlphaEntry>

  /** Probability of item 0, and its SD, predicted on every trial. */
  datatype Predictions = Predictions(
    currentP0: seq<real>,
    currentSdP0: seq<real>,
    priorP0: seq<real>,
    priorSdP0: seq<real>)

  /** The extra fields only the fixed observer reports. */
  datatype FixedMetrics = FixedMetrics(
    count: map<Pattern, seq<real>>,
    alphas: AlphaTable,
    shannon: seq<Option<real>>,
    bayesian: seq<Option<real>>,
    confidenceCorrected: seq<Option<real>>)

  /** The output record of the wrapper. `predictions` is None exactly where
      `add_predictions` sets its four prediction fields to None. */
  datatype Output = Output(
    patterns: map<Pattern, Posterior>,
    surprise: seq<Option<real>>,
    fixed: Option<FixedMetrics>,
    volatility: Option<seq<seq<real>>>,
    predictions: Option<Predictions>)
}
