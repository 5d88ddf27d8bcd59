/** Shannon surprise of each observation under the posterior mean
    predicted on the trial before (MarkovModel/IdealObserver.py,
    `compute_surprise`). */
module Surprise {
  import opened Wrappers
  import opened Types
  import opened Numerics

  /** The first trial that has a surprise: one full pattern of `order + 1`
      symbols must have been seen, and there must be a trial before it. */
  function FirstScored(order: nat): (t: nat)
    ensures t >= 1 && t >= order
    ensures t == order || (order == 0 && t == 1)
  {
    if order == 0 then 1 else order
  }

  /** What the surprise series must be: entry `t` is defined exactly when
      `t` is at least `FirstScored(order)` and the pattern made of the
      symbols `t - order` .. `t` has a posterior; it is then minus the log2
      of that pattern's mean on trial `t - 1`. */
  predicate IsSurprise(s: seq<int>, out: map<Pattern, Posterior>, order: nat, f: Transcendental, r: seq<Option<real>>)
    requires Aligned(out, |s|)
  {
    && |r| == |s|
    && (forall t | 0 <= t < |s| :: r[t].Some? <==> FirstScored(order) <= t && s[t - order..t + 1] in out)
    && (forall t | FirstScored(order) <= t < |s| && r[t].Some? ::
          r[t].value == -f.log2(out[s[t - order..t + 1]].mean[t - 1]))
  }

  /** The surprise series, as `IsSurprise` describes it. The two loops of
      `compute_surprise`, one for order 0 keyed by the one-symbol pattern
      and one for longer patterns, are kept apart. */
  method ComputeSurprise(s: seq<int>, out: map<Pattern, Posterior>, order: nat, f: Transcendental)
    returns (r: seq<Option<real>>)
    requires Aligned(out, |s|)
    ensures IsSurprise(s, out, order, f, r)
  {
    r := seq(|s|, _ => None);
    var start := FirstScored(order);
    var t := start;
    while t < |s|
      invariant start <= t && (t <= |s| || t == start)
      invariant |r| == |s|
      invariant forall i | 0 <= i < |s| :: r[i].Some? <==> start <= i < t && s[i - order..i + 1] in out
      invariant forall i | start <= i < |s| && r[i].Some? ::
        r[i].value == -f.log2(out[s[i - order..i + 1]].mean[i - 1])
    {
      if order == 0 {
        var pattern := [s[t]];
        assert pattern == s[t - order..t + 1];
        if pattern in out {
          r := r[t := Some(-f.log2(out[pattern].mean[t - 1]))];
        }
      } else {
        var pattern := s[t - order..t + 1];
        if pattern in out {
          r := r[t := Some(-f.log2(out[pattern].mean[t - 1]))];
        }
      }
      t := t + 1;
    }
  }

  /** The description pins the series down: two series that both meet it
      are equal. */
  lemma SurpriseUnique(s: seq<int>, out: map<Pattern, Posterior>, order: nat, f: Transcendental,
                       r1: seq<Option<real>>, r2: seq<Option<real>>)
    requires Aligned(out, |s|)
    requires IsSurprise(s, out, order, f, r1) && IsSurprise(s, out, order, f, r2)
    ensures r1 == r2
  {
    forall t | 0 <= t < |s| ensures r1[t] == r2[t] {
      if r1[t].Some? {
        assert r2[t].Some?;
      }
    }
  }

  /** When every mean is a probability in (0, 1] and log2 is not positive
      there, every defined surprise is non-negative. */
  lemma SurpriseNonNegative(s: seq<int>, out: map<Pattern, Posterior>, order: nat, f: Transcendental,
                            r: seq<Option<real>>)
    requires Aligned(out, |s|) && IsSurprise(s, out, order, f, r)
    requires forall k, t | k in out && 0 <= t < |s| :: 0.0 < out[k].mean[t] <= 1.0
    requires forall x: real | 0.0 < x <= 1.0 :: f.log2(x) <= 0.0
    ensures forall t | 0 <= t < |s| && r[t].Some? :: r[t].value >= 0.0
  {
    forall t | 0 <= t < |s| && r[t].Some? ensures r[t].value >= 0.0 {
      var x := out[s[t - order..t + 1]].mean[t - 1];
      assert 0.0 < x <= 1.0;
    }
  }

  /** Surprise on trial `t` looks only at the symbols up to `t`: two
      sequences sharing that prefix get the same value there. */
  lemma SurpriseCausal(s1: seq<int>, s2: seq<int>, out: map<Pattern, Posterior>, order: nat, f: Transcendental,
                       r1: seq<Option<real>>, r2: seq<Option<real>>, t: nat)
    requires |s1| == |s2| && Aligned(out, |s1|)
    requires IsSurprise(s1, out, order, f, r1) && IsSurprise(s2, out, order, f, r2)
    requires t < |s1| && s1[..t + 1] == s2[..t + 1]
    ensures r1[t] == r2[t]
  {
    if FirstScored(order) <= t {
      assert s1[t - order..t + 1] == s1[..t + 1][t - order..];
      assert s2[t - order..t + 1] == s2[..t + 1][t - order..];
    }
  }
}
