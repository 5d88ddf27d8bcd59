/** Real arithmetic the wrapper needs: sums, dot products, NaN-propagating
    series, and the special functions it takes from its numeric libraries. */
module Numerics {
  import opened Wrappers

  /** The special functions used by the wrapper. They are left
      uninterpreted: every fact proved here holds whatever they compute. */
  datatype Transcendental = Transcendental(
    log2: real -> real,
    ln: real -> real,
    sqrt: real -> real,
    exp2: real -> real,
    gammaLn: real -> real,
    digamma: real -> real,
    dirichletEntropy: seq<real> -> real)

  function Sum(s: seq<real>): real {
    if |s| == 0 then 0.0 else s[0] + Sum(s[1..])
  }

  /** Element-wise product. */
  function Times(a: seq<real>, b: seq<real>): (r: seq<real>)
    requires |a| == |b|
    ensures |r| == |a|
  {
    seq(|a|, i requires 0 <= i < |a| => a[i] * b[i])
  }

  function Dot(a: seq<real>, b: seq<real>): real
    requires |a| == |b|
  {
    Sum(Times(a, b))
  }

  /** `f` applied to every element. */
  function Apply(f: real -> real, s: seq<real>): seq<real> {
    seq(|s|, i requires 0 <= i < |s| => f(s[i]))
  }

  function Squares(g: seq<real>): (r: seq<real>)
    ensures |r| == |g|
  {
    seq(|g|, i requires 0 <= i < |g| => g[i] * g[i])
  }

  /** Squared distances of the elements of `g` from `m`. */
  function Deviations(g: seq<real>, m: real): (r: seq<real>)
    ensures |r| == |g|
  {
    seq(|g|, i requires 0 <= i < |g| => (g[i] - m) * (g[i] - m))
  }

  predicate NonNegative(s: seq<real>) {
    forall i | 0 <= i < |s| :: s[i] >= 0.0
  }

  predicate AllPositive(s: seq<real>) {
    forall i | 0 <= i < |s| :: s[i] > 0.0
  }

  /** A probability vector: non-negative weights summing to one. */
  predicate IsDistribution(p: seq<real>) {
    NonNegative(p) && Sum(p) == 1.0
  }

  // NaN-propagating arithmetic: None plays the part of NaN.

  function OptAdd(a: Option<real>, b: Option<real>): (r: Option<real>)
    ensures r.Some? <==> a.Some? && b.Some?
    ensures r.Some? ==> r.value == a.value + b.value
  {
    if a.Some? && b.Some? then Some(a.value + b.value) else None
  }

  function OptSub(a: Option<real>, b: Option<real>): (r: Option<real>)
    ensures r.Some? <==> a.Some? && b.Some?
    ensures r.Some? ==> r.value == a.value - b.value
  {
    if a.Some? && b.Some? then Some(a.value - b.value) else None
  }

  /** Element-wise sum of two series of equal length. */
  function AddSeries(a: seq<Option<real>>, b: seq<Option<real>>): (r: seq<Option<real>>)
    requires |a| == |b|
    ensures |r| == |a|
  {
    seq(|a|, i requires 0 <= i < |a| => OptAdd(a[i], b[i]))
  }

  function SubSeries(a: seq<Option<real>>, b: seq<Option<real>>): (r: seq<Option<real>>)
    requires |a| == |b|
    ensures |r| == |a|
  {
    seq(|a|, i requires 0 <= i < |a| => OptSub(a[i], b[i]))
  }

  function Zeros(T: nat): seq<Option<real>> {
    seq(T, _ => Some(0.0))
  }

  predicate Rows(m: seq<seq<Option<real>>>, T: nat) {
    forall i | 0 <= i < |m| :: |m[i]| == T
  }

  /** The sum over the first axis of a NaN-filled matrix with rows of
      length `T`: an entry is NaN as soon as one summand is. */
  function ColumnSum(m: seq<seq<Option<real>>>, T: nat): (r: seq<Option<real>>)
    requires Rows(m, T)
    ensures |r| == T
  {
    if |m| == 0 then Zeros(T) else AddSeries(m[0], ColumnSum(m[1..], T))
  }

  /** Column `j` of `m`, reading NaN as zero. */
  function Column(m: seq<seq<Option<real>>>, j: nat): seq<real>
    requires forall i | 0 <= i < |m| :: j < |m[i]|
  {
    seq(|m|, i requires 0 <= i < |m| => m[i][j].GetOr(0.0))
  }

  /** A column sum is defined exactly where every summand is, and is then
      the sum of the column. */
  lemma {:induction false} ColumnSumAt(m: seq<seq<Option<real>>>, T: nat, j: nat)
    requires Rows(m, T) && j < T
    ensures ColumnSum(m, T)[j].Some? <==> forall i | 0 <= i < |m| :: m[i][j].Some?
    ensures ColumnSum(m, T)[j].Some? ==> ColumnSum(m, T)[j].value == Sum(Column(m, j))
  {
    if |m| > 0 {
      ColumnSumAt(m[1..], T, j);
      assert Column(m, j)[1..] == Column(m[1..], j);
      forall i | 1 <= i < |m| ensures m[i] == m[1..][i - 1] { }
    }
  }

  /** Summing a matrix whose rows are stacked from two blocks is summing the
      blocks separately. */
  lemma {:induction false} ColumnSumAppend(a: seq<seq<Option<real>>>, b: seq<seq<Option<real>>>, T: nat)
    requires Rows(a, T) && Rows(b, T)
    ensures Rows(a + b, T)
    ensures ColumnSum(a + b, T) == AddSeries(ColumnSum(a, T), ColumnSum(b, T))
  {
    if |a| == 0 {
      assert a + b == b;
      forall j | 0 <= j < T
        ensures ColumnSum(b, T)[j] == OptAdd(Some(0.0), ColumnSum(b, T)[j])
      { }
    } else {
      assert (a + b)[1..] == a[1..] + b;
      ColumnSumAppend(a[1..], b, T);
    }
  }

  lemma {:induction false} SumSnoc(s: seq<real>, x: real)
    ensures Sum(s + [x]) == Sum(s) + x
  {
    if |s| > 0 {
      assert (s + [x])[1..] == s[1..] + [x];
      SumSnoc(s[1..], x);
    } else {
      assert s + [x] == [x];
    }
  }

  lemma {:induction false} SumZeros(s: seq<real>)
    requires forall i | 0 <= i < |s| :: s[i] == 0.0
    ensures Sum(s) == 0.0
  {
    if |s| > 0 {
      SumZeros(s[1..]);
    }
  }

  lemma {:induction false} SumMonotone(a: seq<real>, b: seq<real>)
    requires |a| == |b|
    requires forall i | 0 <= i < |a| :: a[i] <= b[i]
    ensures Sum(a) <= Sum(b)
  {
    if |a| > 0 {
      SumMonotone(a[1..], b[1..]);
    }
  }

  /** A sum whose only non-zero term is at position `i`. */
  lemma {:induction false} SumSingle(s: seq<real>, i: nat)
    requires i < |s|
    requires forall j | 0 <= j < |s| && j != i :: s[j] == 0.0
    ensures Sum(s) == s[i]
  {
    if i == 0 {
      SumZeros(s[1..]);
    } else {
      SumSingle(s[1..], i - 1);
    }
  }

  /** Sums respect a fixed linear combination of the terms. */
  lemma {:induction false} SumCombination(a: seq<real>, b: seq<real>, c: seq<real>, d: seq<real>, k1: real, k2: real)
    requires |a| == |b| == |c| == |d|
    requires forall i | 0 <= i < |a| :: a[i] == b[i] - k1 * c[i] + k2 * d[i]
    ensures Sum(a) == Sum(b) - k1 * Sum(c) + k2 * Sum(d)
  {
    if |a| > 0 {
      SumCombination(a[1..], b[1..], c[1..], d[1..], k1, k2);
      Distribute(k1, c[0], Sum(c[1..]));
      Distribute(k2, d[0], Sum(d[1..]));
    }
  }

  lemma Distribute(k: real, x: real, y: real)
    ensures k * (x + y) == k * x + k * y
  { }

  /** A dot product with a vector of zeros is zero. */
  lemma DotZeros(a: seq<real>, b: seq<real>)
    requires |a| == |b|
    requires forall i | 0 <= i < |a| :: a[i] == 0.0
    ensures Dot(a, b) == 0.0
  {
    SumZeros(Times(a, b));
  }

  lemma DotNonNegative(p: seq<real>, q: seq<real>)
    requires |p| == |q| && NonNegative(p) && NonNegative(q)
    ensures Dot(p, q) >= 0.0
  {
    var pq := Times(p, q);
    var z := seq(|p|, _ => 0.0);
    forall i | 0 <= i < |p| ensures z[i] <= pq[i] {
      var a, b := p[i], q[i];
      assert a >= 0.0 && b >= 0.0;
      assert pq[i] == a * b;
      ProductNonNegative(a, b);
    }
    SumMonotone(z, pq);
    SumZeros(z);
  }

  lemma ProductNonNegative(a: real, b: real)
    requires a >= 0.0 && b >= 0.0
    ensures a * b >= 0.0
  { }

  lemma ProductBetween(a: real, x: real)
    requires a >= 0.0 && 0.0 <= x <= 1.0
    ensures 0.0 <= a * x <= a
  {
    ProductNonNegative(a, x);
    ProductNonNegative(a, 1.0 - x);
  }

  /** Weighting values drawn from [0, 1] by non-negative weights gives at
      least zero and at most the total weight. */
  lemma DotBetween(p: seq<real>, g: seq<real>)
    requires |p| == |g| && NonNegative(p)
    requires forall i | 0 <= i < |g| :: 0.0 <= g[i] <= 1.0
    ensures 0.0 <= Dot(p, g) <= Sum(p)
  {
    var pg := Times(p, g);
    forall i | 0 <= i < |p| ensures 0.0 <= pg[i] <= p[i] {
      var a, x := p[i], g[i];
      assert a >= 0.0 && 0.0 <= x <= 1.0;
      assert pg[i] == a * x;
      ProductBetween(a, x);
    }
    SumMonotone(pg, p);
    var z := seq(|p|, _ => 0.0);
    SumMonotone(z, pg);
    SumZeros(z);
  }

  /** A dot product with a unit vector picks one element. */
  lemma DotUnit(p: seq<real>, g: seq<real>, i: nat)
    requires |p| == |g| && i < |p|
    requires forall j | 0 <= j < |p| :: p[j] == if j == i then 1.0 else 0.0
    ensures Dot(p, g) == g[i]
  {
    SumSingle(Times(p, g), i);
  }

  /** Expanding the weighted squared deviations from `m`. */
  lemma DotDeviations(p: seq<real>, g: seq<real>, m: real)
    requires |p| == |g|
    ensures Dot(p, Deviations(g, m)) == Dot(p, Squares(g)) - 2.0 * m * Dot(p, g) + m * m * Sum(p)
  {
    var dev, sq, lin := Times(p, Deviations(g, m)), Times(p, Squares(g)), Times(p, g);
    var k1, k2 := 2.0 * m, m * m;
    forall i | 0 <= i < |p| ensures dev[i] == sq[i] - k1 * lin[i] + k2 * p[i] {
      var a, x := p[i], g[i];
      var d, s := Deviations(g, m)[i], Squares(g)[i];
      assert d == (x - m) * (x - m);
      assert s == x * x;
      assert dev[i] == a * d && sq[i] == a * s && lin[i] == a * x;
      ExpandPoint(a, x, m, d, s, k1, k2);
    }
    SumCombination(dev, sq, lin, p, k1, k2);
  }

  /** The polynomial identity behind `DotDeviations`, for one term. */
  lemma ExpandPoint(a: real, x: real, m: real, d: real, s: real, k1: real, k2: real)
    requires d == (x - m) * (x - m) && s == x * x && k1 == 2.0 * m && k2 == m * m
    ensures a * d == a * s - k1 * (a * x) + k2 * a
  { }
}
