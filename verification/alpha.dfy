/** The table of Dirichlet parameters of the fixed observer: one entry per
    context, one row per trial, one column per next item
    (MarkovModel/IdealObserver.py, `compute_alpha`). */
module Alpha {
  import opened Wrappers
  import opened Types
  import opened Numerics

  function Pow(n: nat, k: nat): nat {
    if k == 0 then 1 else n * Pow(n, k - 1)
  }

  lemma {:induction false} PowPositive(n: nat, k: nat)
    requires n > 0
    ensures Pow(n, k) > 0
  {
    if k > 0 {
      PowPositive(n, k - 1);
    }
  }

  /** A tuple of `k` symbols drawn from 0 .. n-1. */
  predicate IsTuple(p: Pattern, k: nat, n: nat) {
    |p| == k && forall i | 0 <= i < |p| :: 0 <= p[i] < n
  }

  /** `p` followed by each symbol in turn. */
  function Row(p: Pattern, n: nat): (r: seq<Pattern>)
    ensures |r| == n
    ensures forall s | 0 <= s < n :: r[s] == p + [s]
  {
    seq(n, s requires 0 <= s < n => p + [s])
  }

  /** Every pattern of `ps`, in order, followed by each symbol in turn. */
  function Extend(ps: seq<Pattern>, n: nat): seq<Pattern> {
    if |ps| == 0 then [] else Row(ps[0], n) + Extend(ps[1..], n)
  }

  /** All tuples of `k` symbols from 0 .. n-1, in the order of
      `itertools.product(range(n), repeat=k)`: lexicographic, the last
      position varying fastest. */
  function Tuples(k: nat, n: nat): seq<Pattern> {
    if k == 0 then [[]] else Extend(Tuples(k - 1, n), n)
  }

  predicate Distinct(ps: seq<Pattern>) {
    forall i, j | 0 <= i < j < |ps| :: ps[i] != ps[j]
  }

  lemma {:induction false} ExtendLength(ps: seq<Pattern>, n: nat)
    ensures |Extend(ps, n)| == |ps| * n
  {
    if |ps| > 0 {
      ExtendLength(ps[1..], n);
      assert |ps| * n == n + (|ps| - 1) * n;
    }
  }

  /** There are `n^k` tuples. */
  lemma {:induction false} TuplesLength(k: nat, n: nat)
    ensures |Tuples(k, n)| == Pow(n, k)
  {
    if k > 0 {
      TuplesLength(k - 1, n);
      ExtendLength(Tuples(k - 1, n), n);
    }
  }

  /** The patterns of `Extend(ps, n)` are those of `ps` with one symbol
      below `n` appended. */
  lemma {:induction false} ExtendMember(ps: seq<Pattern>, n: nat, q: Pattern)
    ensures q in Extend(ps, n) <==> |q| > 0 && q[..|q| - 1] in ps && 0 <= q[|q| - 1] < n
  {
    if |ps| > 0 {
      ExtendMember(ps[1..], n, q);
      assert ps == [ps[0]] + ps[1..];
      var row := Row(ps[0], n);
      if q in row {
        var s :| 0 <= s < n && row[s] == q;
        assert q[..|q| - 1] == ps[0];
      }
      if |q| > 0 && q[..|q| - 1] == ps[0] && 0 <= q[|q| - 1] < n {
        assert q == row[q[|q| - 1]];
      }
    }
  }

  lemma {:induction false} TuplesMember(k: nat, n: nat, q: Pattern)
    ensures q in Tuples(k, n) <==> IsTuple(q, k, n)
  {
    if k > 0 {
      ExtendMember(Tuples(k - 1, n), n, q);
      if |q| > 0 {
        TuplesMember(k - 1, n, q[..|q| - 1]);
        TupleSnoc(q, k, n);
      }
    } else {
      assert Tuples(0, n) == [[]];
    }
  }

  /** The enumeration holds exactly the tuples of `k` symbols below `n`. */
  lemma TuplesMembers(k: nat, n: nat)
    ensures forall q :: q in Tuples(k, n) <==> IsTuple(q, k, n)
  {
    forall q ensures q in Tuples(k, n) <==> IsTuple(q, k, n) {
      TuplesMember(k, n, q);
    }
  }

  /** A tuple is a shorter tuple followed by one more symbol. */
  lemma TupleSnoc(q: Pattern, k: nat, n: nat)
    requires |q| > 0 && k > 0
    ensures IsTuple(q, k, n) <==> IsTuple(q[..|q| - 1], k - 1, n) && 0 <= q[|q| - 1] < n
  {
    var front := q[..|q| - 1];
    if IsTuple(front, k - 1, n) && 0 <= q[|q| - 1] < n {
      forall i | 0 <= i < |q| ensures 0 <= q[i] < n {
        if i < |q| - 1 {
          assert q[i] == front[i];
        }
      }
    }
  }

  lemma DistinctConcat(a: seq<Pattern>, b: seq<Pattern>)
    requires Distinct(a) && Distinct(b)
    requires forall x | x in a :: x !in b
    ensures Distinct(a + b)
  {
    forall i, j | 0 <= i < j < |a + b| ensures (a + b)[i] != (a + b)[j] {
      if i < |a| && j >= |a| {
        assert (a + b)[i] in a && (a + b)[j] == b[j - |a|];
      }
    }
  }

  lemma {:induction false} ExtendDistinct(ps: seq<Pattern>, n: nat)
    requires Distinct(ps)
    ensures Distinct(Extend(ps, n))
  {
    if |ps| > 0 {
      var rest := ps[1..];
      assert Distinct(rest) by {
        forall i, j | 0 <= i < j < |rest| ensures rest[i] != rest[j] {
          assert rest[i] == ps[i + 1] && rest[j] == ps[j + 1];
        }
      }
      ExtendDistinct(rest, n);
      var row := Row(ps[0], n);
      assert Distinct(row) by {
        forall i, j | 0 <= i < j < n ensures row[i] != row[j] {
          assert row[i][|ps[0]|] == i && row[j][|ps[0]|] == j;
        }
      }
      forall x | x in row ensures x !in Extend(rest, n) {
        var s :| 0 <= s < n && row[s] == x;
        ExtendMember(rest, n, x);
        assert x[..|x| - 1] == ps[0];
        assert ps[0] !in rest by {
          forall i | 0 <= i < |rest| ensures rest[i] != ps[0] {
            assert rest[i] == ps[i + 1];
          }
        }
      }
      DistinctConcat(row, Extend(rest, n));
    }
  }

  /** No tuple is enumerated twice. */
  lemma {:induction false} TuplesDistinct(k: nat, n: nat)
    ensures Distinct(Tuples(k, n))
  {
    if k > 0 {
      TuplesDistinct(k - 1, n);
      ExtendDistinct(Tuples(k - 1, n), n);
    }
  }

  /** Every pattern the table reads has a count series and a prior weight. */
  ghost predicate Covered(count: map<Pattern, seq<real>>, prior: map<Pattern, real>, order: nat, nitem: nat) {
    forall q | IsTuple(q, order + 1, nitem) :: q in count && q in prior
  }

  /** Every count series covers the `T` trials. */
  predicate CountsAligned(count: map<Pattern, seq<real>>, T: nat) {
    forall q | q in count :: |count[q]| == T
  }

  /** The rows of one context: on each trial, count plus prior weight for
      each next item. */
  function ContextRows(count: map<Pattern, seq<real>>, prior: map<Pattern, real>, ctx: Pattern,
                       nitem: nat, T: nat): (rows: seq<seq<real>>)
    requires forall s | 0 <= s < nitem :: ctx + [s] in count && ctx + [s] in prior && |count[ctx + [s]]| == T
    ensures |rows| == T
    ensures forall t | 0 <= t < T :: |rows[t]| == nitem
    ensures forall t, s | 0 <= t < T && 0 <= s < nitem :: rows[t][s] == count[ctx + [s]][t] + prior[ctx + [s]]
  {
    seq(T, t requires 0 <= t < T =>
      seq(nitem, s requires 0 <= s < nitem => count[ctx + [s]][t] + prior[ctx + [s]]))
  }

  /** The Dirichlet parameters of every context on every trial, contexts in
      enumeration order: the count of the pattern context-then-item plus its
      prior weight. A pattern absent from the counts or from the prior is a
      failed lookup. */
  function ComputeAlpha(count: map<Pattern, seq<real>>, prior: map<Pattern, real>,
                        order: nat, nitem: nat, T: nat): (r: Result<AlphaTable, Error>)
    requires CountsAligned(count, T)
    ensures r.Success? <==> Covered(count, prior, order, nitem)
    ensures r.Failure? ==> r.error == MissingPattern
    ensures r.Success? ==> |r.value| == |Tuples(order, nitem)|
    ensures r.Success? ==> forall i | 0 <= i < |r.value| :: r.value[i].context == Tuples(order, nitem)[i]
    ensures r.Success? ==> forall i, s | 0 <= i < |r.value| && 0 <= s < nitem ::
      r.value[i].context + [s] in count && r.value[i].context + [s] in prior
    ensures r.Success? ==> forall i | 0 <= i < |r.value| :: |r.value[i].rows| == T
    ensures r.Success? ==> forall i, t | 0 <= i < |r.value| && 0 <= t < T :: |r.value[i].rows[t]| == nitem
    ensures r.Success? ==> forall i, t, s | 0 <= i < |r.value| && 0 <= t < T && 0 <= s < nitem ::
      r.value[i].rows[t][s] == count[r.value[i].context + [s]][t] + prior[r.value[i].context + [s]]
  {
    TuplesMembers(order + 1, nitem);
    if forall q | q in Tuples(order + 1, nitem) :: q in count && q in prior then
      var ctxs := Tuples(order, nitem);
      TuplesMembers(order, nitem);
      forall i, s | 0 <= i < |ctxs| && 0 <= s < nitem ensures ctxs[i] + [s] in count && ctxs[i] + [s] in prior {
        assert IsTuple(ctxs[i], order, nitem);
        assert IsTuple(ctxs[i] + [s], order + 1, nitem);
      }
      Success(seq(|ctxs|, i requires 0 <= i < |ctxs| =>
        AlphaEntry(ctxs[i], ContextRows(count, prior, ctxs[i], nitem, T))))
    else
      Failure(MissingPattern)
  }

  /** The table has exactly one entry for each of the `nitem^order`
      contexts. */
  lemma AlphaContexts(count: map<Pattern, seq<real>>, prior: map<Pattern, real>, order: nat, nitem: nat, T: nat)
    requires CountsAligned(count, T) && Covered(count, prior, order, nitem)
    ensures var table := ComputeAlpha(count, prior, order, nitem, T).value;
      && |table| == Pow(nitem, order)
      && (forall i | 0 <= i < |table| :: IsTuple(table[i].context, order, nitem))
      && (forall ctx | IsTuple(ctx, order, nitem) :: exists i | 0 <= i < |table| :: table[i].context == ctx)
      && (forall i, j | 0 <= i < j < |table| :: table[i].context != table[j].context)
  {
    var table := ComputeAlpha(count, prior, order, nitem, T).value;
    var ctxs := Tuples(order, nitem);
    TuplesLength(order, nitem);
    TuplesMembers(order, nitem);
    TuplesDistinct(order, nitem);
    forall ctx | IsTuple(ctx, order, nitem) ensures exists i | 0 <= i < |table| :: table[i].context == ctx {
      var i :| 0 <= i < |ctxs| && ctxs[i] == ctx;
      assert table[i].context == ctx;
    }
  }

  /** Non-negative counts and positive prior weights make every Dirichlet
      parameter positive, as the divergence requires. */
  lemma AlphaPositive(count: map<Pattern, seq<real>>, prior: map<Pattern, real>, order: nat, nitem: nat, T: nat)
    requires CountsAligned(count, T) && Covered(count, prior, order, nitem)
    requires forall q | q in count :: NonNegative(count[q])
    requires forall q | q in prior :: prior[q] > 0.0
    ensures forall i, t | 0 <= i < |ComputeAlpha(count, prior, order, nitem, T).value| && 0 <= t < T ::
      AllPositive(ComputeAlpha(count, prior, order, nitem, T).value[i].rows[t])
  {
    var table := ComputeAlpha(count, prior, order, nitem, T).value;
    forall i, t | 0 <= i < |table| && 0 <= t < T ensures AllPositive(table[i].rows[t]) {
      forall s | 0 <= s < nitem ensures table[i].rows[t][s] > 0.0 {
        var q := table[i].context + [s];
        assert count[q][t] >= 0.0;
      }
    }
  }
}
