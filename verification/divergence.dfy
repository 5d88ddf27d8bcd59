/** Bayesian surprise, baseline entropy and confidence-corrected surprise of
    the fixed observer, computed from its alpha table
    (MarkovModel/IdealObserver.py, `KL_dirichlet`, `KL`, `H0`,
    `compute_bayesian`, `compute_confidence_corrected`). */
module Divergence {
  import opened Wrappers
  import opened Types
  import opened Numerics

  /** Every context has `T` rows of `nitem` parameters. */
  predicate TableShaped(table: AlphaTable, T: nat, nitem: nat) {
    forall i | 0 <= i < |table| :: |table[i].rows| == T && forall t | 0 <= t < T :: |table[i].rows[t]| == nitem
  }

  /** Every Dirichlet parameter in the table is positive. */
  predicate TablePositive(table: AlphaTable) {
    forall i, t | 0 <= i < |table| && 0 <= t < |table[i].rows| :: AllPositive(table[i].rows[t])
  }

  function Diff(a: seq<real>, b: seq<real>): (r: seq<real>)
    requires |a| == |b|
    ensures |r| == |a|
  {
    seq(|a|, i requires 0 <= i < |a| => a[i] - b[i])
  }

  /** Every element of `s` lowered by `c`. */
  function Lowered(s: seq<real>, c: real): (r: seq<real>)
    ensures |r| == |s|
  {
    seq(|s|, i requires 0 <= i < |s| => s[i] - c)
  }

  /** The closed-form Kullback-Leibler divergence of Dirichlet(b) from
      Dirichlet(a). Both parameter vectors have one entry per item and are
      positive, which `KL_dirichlet` asserts before evaluating. */
  function KLDirichlet(a: seq<real>, b: seq<real>, f: Transcendental): real
    requires |a| == |b| && AllPositive(a) && AllPositive(b)
  {
    f.gammaLn(Sum(a)) - f.gammaLn(Sum(b))
      + Sum(Apply(f.gammaLn, b)) - Sum(Apply(f.gammaLn, a))
      + Dot(Diff(a, b), Lowered(Apply(f.digamma, a), f.digamma(Sum(a))))
  }

  /** A Dirichlet distribution does not diverge from itself: the terms of
      the closed form cancel, whatever the special functions compute. */
  lemma {:induction false} KLDirichletSelf(a: seq<real>, f: Transcendental)
    requires AllPositive(a)
    ensures KLDirichlet(a, a, f) == 0.0
  {
    DotZeros(Diff(a, a), Lowered(Apply(f.digamma, a), f.digamma(Sum(a))));
  }

  /** The divergences of one context: none on the first trial, then each
      trial's parameters compared with the previous trial's. */
  function ContextKL(rows: seq<seq<real>>, nitem: nat, f: Transcendental): (r: seq<Option<real>>)
    requires forall t | 0 <= t < |rows| :: |rows[t]| == nitem && AllPositive(rows[t])
    ensures |r| == |rows|
  {
    seq(|rows|, j requires 0 <= j < |rows| =>
      if j == 0 then None else Some(KLDirichlet(rows[j - 1], rows[j], f)))
  }

  /** The matrix of per-context divergences, one row per context. */
  function KLMatrix(table: AlphaTable, T: nat, nitem: nat, f: Transcendental): (m: seq<seq<Option<real>>>)
    requires TableShaped(table, T, nitem) && TablePositive(table)
    ensures |m| == |table| && Rows(m, T)
  {
    seq(|table|, i requires 0 <= i < |table| => ContextKL(table[i].rows, nitem, f))
  }

  /** The divergence of trial `j` from trial `j - 1`, context by context. */
  function TrialKL(table: AlphaTable, T: nat, nitem: nat, j: nat, f: Transcendental): seq<real>
    requires TableShaped(table, T, nitem) && TablePositive(table) && 1 <= j < T
  {
    seq(|table|, i requires 0 <= i < |table| => KLDirichlet(table[i].rows[j - 1], table[i].rows[j], f))
  }

  /** Bayesian surprise per trial: the per-context divergences summed over
      contexts, undefined on the first trial. A table without any context
      has no first entry to take the number of trials from. */
  function KL(table: AlphaTable, T: nat, nitem: nat, f: Transcendental): (r: Result<seq<Option<real>>, Error>)
    requires TableShaped(table, T, nitem) && TablePositive(table)
    ensures r.Failure? <==> |table| == 0
    ensures r.Failure? ==> r.error == NoContexts
    ensures r.Success? ==> |r.value| == T
    ensures r.Success? && T > 0 ==> r.value[0] == None
    ensures r.Success? ==> forall j | 1 <= j < T :: r.value[j] == Some(Sum(TrialKL(table, T, nitem, j, f)))
  {
    if |table| == 0 then Failure(NoContexts)
    else
      KLColumns(table, T, nitem, f);
      Success(ColumnSum(KLMatrix(table, T, nitem, f), T))
  }

  lemma KLColumns(table: AlphaTable, T: nat, nitem: nat, f: Transcendental)
    requires TableShaped(table, T, nitem) && TablePositive(table) && |table| > 0
    ensures T > 0 ==> ColumnSum(KLMatrix(table, T, nitem, f), T)[0] == None
    ensures forall j | 1 <= j < T ::
      ColumnSum(KLMatrix(table, T, nitem, f), T)[j] == Some(Sum(TrialKL(table, T, nitem, j, f)))
  {
    var m := KLMatrix(table, T, nitem, f);
    if T > 0 {
      ColumnSumAt(m, T, 0);
      assert m[0][0] == None;
    }
    forall j | 1 <= j < T ensures ColumnSum(m, T)[j] == Some(Sum(TrialKL(table, T, nitem, j, f))) {
      KLColumnAt(table, T, nitem, f, j);
    }
  }

  /** Column `j` of the matrix sums to trial `j`'s divergence. */
  lemma KLColumnAt(table: AlphaTable, T: nat, nitem: nat, f: Transcendental, j: nat)
    requires TableShaped(table, T, nitem) && TablePositive(table) && |table| > 0 && 1 <= j < T
    ensures ColumnSum(KLMatrix(table, T, nitem, f), T)[j] == Some(Sum(TrialKL(table, T, nitem, j, f)))
  {
    var m := KLMatrix(table, T, nitem, f);
    ColumnSumAt(m, T, j);
    assert Column(m, j) == TrialKL(table, T, nitem, j, f);
  }

  /** Where no context's parameters changed from trial `j - 1` to trial `j`,
      the Bayesian surprise of trial `j` is zero. */
  lemma KLStatic(table: AlphaTable, T: nat, nitem: nat, f: Transcendental, j: nat)
    requires TableShaped(table, T, nitem) && TablePositive(table) && |table| > 0 && 1 <= j < T
    requires forall i | 0 <= i < |table| :: table[i].rows[j - 1] == table[i].rows[j]
    ensures KL(table, T, nitem, f).value[j] == Some(0.0)
  {
    TrialKLStatic(table, T, nitem, f, j);
  }

  /** The per-context divergences of a trial whose parameters equal the
      previous trial's add up to zero. */
  lemma TrialKLStatic(table: AlphaTable, T: nat, nitem: nat, f: Transcendental, j: nat)
    requires TableShaped(table, T, nitem) && TablePositive(table) && 1 <= j < T
    requires forall i | 0 <= i < |table| :: table[i].rows[j - 1] == table[i].rows[j]
    ensures Sum(TrialKL(table, T, nitem, j, f)) == 0.0
  {
    var d := TrialKL(table, T, nitem, j, f);
    forall i | 0 <= i < |table| ensures d[i] == 0.0 {
      KLDirichletSelf(table[i].rows[j], f);
    }
    SumZeros(d);
  }

  /** The divergence is additive over independent contexts: splitting the
      table in two and adding the two results gives the same series. */
  lemma KLAdditive(a: AlphaTable, b: AlphaTable, T: nat, nitem: nat, f: Transcendental)
    requires TableShaped(a, T, nitem) && TablePositive(a) && |a| > 0
    requires TableShaped(b, T, nitem) && TablePositive(b) && |b| > 0
    ensures TableShaped(a + b, T, nitem) && TablePositive(a + b)
    ensures KL(a + b, T, nitem, f) == Success(AddSeries(KL(a, T, nitem, f).value, KL(b, T, nitem, f).value))
  {
    assert forall i | 0 <= i < |a + b| :: (a + b)[i] == if i < |a| then a[i] else b[i - |a|];
    assert KLMatrix(a + b, T, nitem, f) == KLMatrix(a, T, nitem, f) + KLMatrix(b, T, nitem, f);
    ColumnSumAppend(KLMatrix(a, T, nitem, f), KLMatrix(b, T, nitem, f), T);
  }

  /** The entropies of one context, trial by trial. */
  function ContextEntropy(rows: seq<seq<real>>, f: Transcendental): (r: seq<Option<real>>)
    ensures |r| == |rows|
  {
    seq(|rows|, j requires 0 <= j < |rows| => Some(f.dirichletEntropy(rows[j])))
  }

  function EntropyMatrix(table: AlphaTable, T: nat, nitem: nat, f: Transcendental): (m: seq<seq<Option<real>>>)
    requires TableShaped(table, T, nitem)
    ensures |m| == |table| && Rows(m, T)
  {
    seq(|table|, i requires 0 <= i < |table| => ContextEntropy(table[i].rows, f))
  }

  /** The entropy of trial `j`, context by context. */
  function TrialEntropy(table: AlphaTable, T: nat, nitem: nat, j: nat, f: Transcendental): seq<real>
    requires TableShaped(table, T, nitem) && j < T
  {
    seq(|table|, i requires 0 <= i < |table| => f.dirichletEntropy(table[i].rows[j]))
  }

  /** Baseline entropy per trial: the Dirichlet entropies summed over
      contexts, defined on every trial. */
  function H0(table: AlphaTable, T: nat, nitem: nat, f: Transcendental): (r: Result<seq<Option<real>>, Error>)
    requires TableShaped(table, T, nitem)
    ensures r.Failure? <==> |table| == 0
    ensures r.Failure? ==> r.error == NoContexts
    ensures r.Success? ==> |r.value| == T
    ensures r.Success? ==> forall j | 0 <= j < T :: r.value[j] == Some(Sum(TrialEntropy(table, T, nitem, j, f)))
  {
    if |table| == 0 then Failure(NoContexts)
    else
      H0Columns(table, T, nitem, f);
      Success(ColumnSum(EntropyMatrix(table, T, nitem, f), T))
  }

  lemma H0Columns(table: AlphaTable, T: nat, nitem: nat, f: Transcendental)
    requires TableShaped(table, T, nitem) && |table| > 0
    ensures forall j | 0 <= j < T ::
      ColumnSum(EntropyMatrix(table, T, nitem, f), T)[j] == Some(Sum(TrialEntropy(table, T, nitem, j, f)))
  {
    var m := EntropyMatrix(table, T, nitem, f);
    forall j | 0 <= j < T ensures ColumnSum(m, T)[j] == Some(Sum(TrialEntropy(table, T, nitem, j, f))) {
      ColumnSumAt(m, T, j);
      assert Column(m, j) == TrialEntropy(table, T, nitem, j, f);
    }
  }

  /** The baseline entropy is additive over independent contexts. */
  lemma H0Additive(a: AlphaTable, b: AlphaTable, T: nat, nitem: nat, f: Transcendental)
    requires TableShaped(a, T, nitem) && |a| > 0
    requires TableShaped(b, T, nitem) && |b| > 0
    ensures TableShaped(a + b, T, nitem)
    ensures H0(a + b, T, nitem, f) == Success(AddSeries(H0(a, T, nitem, f).value, H0(b, T, nitem, f).value))
  {
    assert forall i | 0 <= i < |a + b| :: (a + b)[i] == if i < |a| then a[i] else b[i - |a|];
    assert EntropyMatrix(a + b, T, nitem, f) == EntropyMatrix(a, T, nitem, f) + EntropyMatrix(b, T, nitem, f);
    ColumnSumAppend(EntropyMatrix(a, T, nitem, f), EntropyMatrix(b, T, nitem, f), T);
  }

  /** The chance level of the correction: 1/2 for two items, 1/24 for
      three, and no entry for any other alphabet size. */
  function PHat(nitem: nat): (r: Option<real>)
    ensures r.Some? <==> nitem == 2 || nitem == 3
    ensures nitem == 2 ==> r == Some(0.5)
    ensures nitem == 3 ==> r == Some(1.0 / 24.0)
    ensures r.Some? ==> 0.0 < r.value < 1.0
  {
    if nitem == 2 then Some(1.0 / 2.0)
    else if nitem == 3 then Some(1.0 / 24.0)
    else None
  }

  /** Confidence-corrected surprise: Shannon plus Bayesian surprise minus
      the baseline entropy, plus the log of the chance level. Any alphabet
      size without a chance level fails the lookup. */
  function ConfidenceCorrected(shannon: seq<Option<real>>, bayesian: seq<Option<real>>, h0: seq<Option<real>>,
                               nitem: nat, f: Transcendental): (r: Result<seq<Option<real>>, Error>)
    requires |shannon| == |bayesian| == |h0|
    ensures r.Failure? <==> nitem != 2 && nitem != 3
    ensures r.Failure? ==> r.error == UnsupportedAlphabet(nitem)
    ensures r.Success? ==> |r.value| == |shannon|
    ensures r.Success? ==> forall t | 0 <= t < |shannon| ::
      r.value[t].Some? <==> shannon[t].Some? && bayesian[t].Some? && h0[t].Some?
    ensures r.Success? ==> forall t | 0 <= t < |shannon| && r.value[t].Some? ::
      r.value[t].value == shannon[t].value + bayesian[t].value - h0[t].value + f.ln(PHat(nitem).value)
  {
    var raw := SubSeries(AddSeries(shannon, bayesian), h0);
    match PHat(nitem)
    case None => Failure(UnsupportedAlphabet(nitem))
    case Some(p) => Success(AddSeries(raw, seq(|raw|, _ => Some(f.ln(p)))))
  }
}
