/** Normalisation of the options dictionary and resolution of the
    parameters each observer kind needs (MarkovModel/IdealObserver.py,
    `check_options` and `parse_options`). */
module Options {
  import opened Wrappers
  import opened Types
  import opened Numerics

  /** ASCII lower-casing of one character. */
  function LowerChar(c: char): (r: char)
    ensures 'A' <= c <= 'Z' ==> r as int == c as int + 32
    ensures !('A' <= c <= 'Z') ==> r == c
    ensures !('A' <= r <= 'Z')
  {
    if 'A' <= c <= 'Z' then (c as int + 32) as char else c
  }

  function Lower(s: string): (r: string)
    ensures |r| == |s|
    ensures forall i | 0 <= i < |s| :: r[i] == LowerChar(s[i])
  {
    seq(|s|, i requires 0 <= i < |s| => LowerChar(s[i]))
  }

  lemma {:induction false} LowerIdempotent(s: string)
    ensures Lower(Lower(s)) == Lower(s)
  {
    forall i | 0 <= i < |s| ensures Lower(Lower(s))[i] == Lower(s)[i] {
      var c := s[i];
      if 'A' <= c <= 'Z' {
        assert Lower(s)[i] as int == c as int + 32;
      }
    }
  }

  /** No entry after position `i` has a key with the same lower-case form. */
  predicate LastOfItsKey(opts: OptionList, i: int)
    requires 0 <= i < |opts|
  {
    forall j | i < j < |opts| :: Lower(opts[j].0) != Lower(opts[i].0)
  }

  /** The dictionary with every key lower-cased. `opts` lists the entries of
      the caller's dictionary in insertion order; when two keys collide
      once lower-cased, the later entry wins. */
  function CheckOptions(opts: OptionList): (r: Config)
    ensures r.Keys == KeysOf(opts)
    ensures forall i | 0 <= i < |opts| && LastOfItsKey(opts, i) :: r[Lower(opts[i].0)] == opts[i].1
  {
    if |opts| == 0 then map[]
    else
      var n := |opts| - 1;
      var front := CheckOptions(opts[..n]);
      var r := front[Lower(opts[n].0) := opts[n].1];
      KeysOfSnoc(opts);
      LastOfItsKeyPrefix(opts);
      r
  }

  /** The lower-cased keys of `opts`. */
  function KeysOf(opts: OptionList): set<string> {
    set i | 0 <= i < |opts| :: Lower(opts[i].0)
  }

  lemma KeysOfSnoc(opts: OptionList)
    requires |opts| > 0
    ensures KeysOf(opts) == KeysOf(opts[..|opts| - 1]) + {Lower(opts[|opts| - 1].0)}
  {
    var n := |opts| - 1;
    forall k | k in KeysOf(opts) ensures k in KeysOf(opts[..n]) + {Lower(opts[n].0)} {
      var i :| 0 <= i < |opts| && Lower(opts[i].0) == k;
      if i < n {
        assert opts[..n][i] == opts[i];
      }
    }
    forall k | k in KeysOf(opts[..n]) ensures k in KeysOf(opts) {
      var i :| 0 <= i < n && Lower(opts[..n][i].0) == k;
      assert opts[..n][i] == opts[i];
    }
  }

  /** An entry that is the last of its key stays so in every prefix holding it. */
  lemma LastOfItsKeyPrefix(opts: OptionList)
    requires |opts| > 0
    ensures forall i | 0 <= i < |opts| - 1 && LastOfItsKey(opts, i) ::
      LastOfItsKey(opts[..|opts| - 1], i) && opts[..|opts| - 1][i] == opts[i]
      && Lower(opts[i].0) != Lower(opts[|opts| - 1].0)
  {
    var n := |opts| - 1;
    forall i | 0 <= i < n && LastOfItsKey(opts, i)
      ensures LastOfItsKey(opts[..n], i)
    {
      forall j | i < j < n ensures Lower(opts[..n][j].0) != Lower(opts[..n][i].0) {
        assert opts[..n][j] == opts[j];
      }
    }
  }

  /** The normalisation exactly as written: the keyword default `None` is
      handed to the loop over `options.keys()`, which fails. */
  function CheckOptionsAsWritten(given: Option<OptionList>): (r: Result<Config, Error>)
    ensures r.Failure? <==> given.None?
    ensures given.Some? ==> r == Success(CheckOptions(given.value))
  {
    match given
    case None => Failure(OptionsMissing)
    case Some(opts) => Success(CheckOptions(opts))
  }

  /** Calling the wrapper without options, which its signature allows, is
      rejected by the normalisation as written. */
  lemma OmittedOptionsRejected()
    ensures CheckOptionsAsWritten(None) == Failure(OptionsMissing)
  { }

  /** The normalisation as intended: omitted options mean no options. */
  function ResolveOptions(given: Option<OptionList>): (r: Config)
    ensures given.None? ==> r == map[]
    ensures given.Some? ==> CheckOptionsAsWritten(given) == Success(r)
  {
    match given
    case None => map[]
    case Some(opts) => CheckOptions(opts)
  }

  /** Omitting the options is the same as passing an empty dictionary. */
  lemma OmittedOptionsAreEmpty()
    ensures ResolveOptions(None) == ResolveOptions(Some([]))
  { }

  /** The count-weighting mode of the fixed observer: at most one of the
      decay factor and the window length is set, and decay takes precedence. */
  function ParseFixedType(cfg: Config): (r: (Option<Value>, Option<Value>))
    ensures r.0.None? || r.1.None?
    ensures r.0.Some? <==> "decay" in cfg
    ensures r.0.Some? ==> r.0.value == cfg["decay"]
    ensures r.1.Some? <==> "decay" !in cfg && "window" in cfg
    ensures r.1.Some? ==> r.1.value == cfg["window"]
  {
    if "decay" in cfg then (Some(cfg["decay"]), None)
    else if "window" in cfg then (None, Some(cfg["window"]))
    else (None, None)
  }

  const DefaultResol: int := 10

  /** The resolution when none is configured. */
  function ResolOrDefault(cfg: Config): (r: Value)
    ensures "resol" in cfg ==> r == cfg["resol"]
    ensures "resol" !in cfg ==> r == Int(10)
  {
    if "resol" in cfg then cfg["resol"] else Int(DefaultResol)
  }

  /** Resolution and volatility of the change-point observers; the
      volatility `p_c` has no default. */
  function ParseHmmParam(cfg: Config): (r: Result<(Value, Value), Error>)
    ensures r.Failure? <==> "p_c" !in cfg
    ensures r.Failure? ==> r.error == MissingOption("p_c")
    ensures r.Success? ==> r.value.0 == ResolOrDefault(cfg) && r.value.1 == cfg["p_c"]
  {
    var resol := ResolOrDefault(cfg);
    if "p_c" in cfg then Success((resol, cfg["p_c"]))
    else Failure(MissingOption("p_c"))
  }

  /** What `len` gives for a value, when it has a length at all. */
  function Length(v: Value): Option<nat> {
    match v
    case Reals(rs) => Some(|rs|)
    case Table(t) => Some(|t.Keys|)
    case _ => None
  }

  /** `n` equal weights summing to one (no weights when `n` is zero). */
  function Uniform(n: nat): (r: seq<real>)
    ensures |r| == n
    ensures forall i | 0 <= i < n :: r[i] == 1.0 / n as real
    ensures n > 0 ==> IsDistribution(r)
  {
    if n == 0 then []
    else
      var u := EqualWeights(n);
      UniformSum(n, n);
      assert u == u[..n];
      u
  }

  /** `n` copies of `1/n`. */
  function EqualWeights(n: nat): (u: seq<real>)
    requires n > 0
    ensures |u| == n
    ensures forall i | 0 <= i < n :: u[i] == 1.0 / n as real
  {
    seq(n, _ => 1.0 / n as real)
  }

  /** The first `k` of `n` equal weights sum to `k / n`. */
  lemma {:induction false} UniformSum(n: nat, k: nat)
    requires 0 < n && k <= n
    ensures Sum(EqualWeights(n)[..k]) == k as real / n as real
  {
    var u := EqualWeights(n);
    if k > 0 {
      UniformSum(n, k - 1);
      SumSnoc(u[..k - 1], u[k - 1]);
      assert u[..k] == u[..k - 1] + [u[k - 1]];
      assert (k - 1) as real / n as real + 1.0 / n as real == k as real / n as real;
    } else {
      assert u[..0] == [];
    }
  }

  const DefaultGridSize: nat := 20

  /** The default volatility grid, 2^(-k/2) for k = 0 .. 19. */
  function DefaultVolatilityGrid(f: Transcendental): (g: seq<real>)
    ensures |g| == 20
    ensures forall k | 0 <= k < 20 :: g[k] == f.exp2(-(k as real) / 2.0)
  {
    seq(DefaultGridSize, k requires 0 <= k < DefaultGridSize => f.exp2(-(k as real) / 2.0))
  }

  /** Resolution, volatility grid and volatility prior of the observers that
      marginalise over volatility. A configured prior is used only together
      with a configured grid; otherwise the prior is uniform over the grid.
      Taking the length of a grid value that has none fails. */
  function ParseHmmFull(cfg: Config, f: Transcendental): (r: Result<(Value, Value, Value), Error>)
    ensures r.Failure? <==> "grid_nu" in cfg && "prior_nu" !in cfg && Length(cfg["grid_nu"]).None?
    ensures r.Failure? ==> r.error == BadOption("grid_nu")
    ensures r.Success? ==> r.value.0 == ResolOrDefault(cfg)
    ensures r.Success? && "grid_nu" !in cfg ==>
      r.value.1 == Reals(DefaultVolatilityGrid(f)) && r.value.2 == Reals(Uniform(20))
    ensures r.Success? && "grid_nu" in cfg ==> r.value.1 == cfg["grid_nu"]
    ensures r.Success? && "grid_nu" in cfg && "prior_nu" in cfg ==> r.value.2 == cfg["prior_nu"]
    ensures r.Success? && "grid_nu" in cfg && "prior_nu" !in cfg ==>
      r.value.2 == Reals(Uniform(Length(cfg["grid_nu"]).value))
  {
    var resol := ResolOrDefault(cfg);
    if "grid_nu" in cfg then
      var grid := cfg["grid_nu"];
      if "prior_nu" in cfg then Success((resol, grid, cfg["prior_nu"]))
      else
        match Length(grid)
        case Some(n) => Success((resol, grid, Reals(Uniform(n))))
        case None => Failure(BadOption("grid_nu"))
    else
      var grid := DefaultVolatilityGrid(f);
      Success((resol, Reals(grid), Reals(Uniform(|grid|))))
  }

  /** The prior of the fixed observer: a symmetric prior of the configured
      weight, else the configured custom prior, else a symmetric prior of
      weight one. `symmetricPrior(order, nitem, weight)` is the collaborator
      that builds symmetric priors. */
  function ParseFixedPrior(cfg: Config, order: nat, nitem: nat,
                           symmetricPrior: (nat, nat, Value) -> map<Pattern, real>): (r: Value)
    ensures "prior_weight" in cfg ==> r == Table(symmetricPrior(order, nitem, cfg["prior_weight"]))
    ensures "prior_weight" !in cfg && "custom_prior" in cfg ==> r == cfg["custom_prior"]
    ensures "prior_weight" !in cfg && "custom_prior" !in cfg ==> r == Table(symmetricPrior(order, nitem, Int(1)))
  {
    if "prior_weight" in cfg then Table(symmetricPrior(order, nitem, cfg["prior_weight"]))
    else if "custom_prior" in cfg then cfg["custom_prior"]
    else Table(symmetricPrior(order, nitem, Int(1)))
  }
}
