/** `cissa_outlier(x, L, I, data_per_unit_period, outliers, errors, H,
    max_iter, components_to_remove, ...)` in CiSSA/pycissa.py: outliers and
    missing values are flagged by a rule, seeded with the median of the
    other values, and then replaced again and again by the CiSSA
    reconstruction until the replacements settle. The decomposition and
    grouping run inside the loop (`cissa` followed by `group`) are given as
    oracles, as are median, median absolute deviation and log. */
module OutlierCorrector {
  import opened Common
  import opened Grouper
  import opened Groupings

  // ---------------------------------------------------------------------
  // Arguments
  // ---------------------------------------------------------------------

  /** An entry of the `outliers` or `errors` list. */
  datatype Item = Text(text: string) | Scalar(x: real) | Items(xs: seq<real>)

  /** How outliers are recognised. */
  datatype Rule =
    | Under(lt: real)               // ['<', l_t]: values below l_t
    | Over(gt: real)                // ['>', g_t]: values above g_t
    | OutsideBand(lt: real, gt: real) // ['<>', [l_t, g_t]]: values outside [l_t, g_t]
    | Spike(k: real)                // ['k', k]: filtered values more than k MADs from their median

  /** The entries the code reads as numbers are numbers. */
  predicate NumericArgs(outliers: seq<Item>, errors: seq<Item>)
  {
    (|outliers| == 2 && outliers[0].Text? && outliers[0].text in ["k", "<", ">"] ==> outliers[1].Scalar?) &&
    (|outliers| == 2 && outliers[0] == Text("<>") ==> !outliers[1].Text?) &&
    (|errors| == 2 && errors[0].Text? && errors[0].text in ["value", "min", "med"] ==> errors[1].Scalar?)
  }

  /** The rule `outliers` selects (pycissa.py:929-953). A list of the wrong
      length is rejected by raising a str, which Python reports as a
      TypeError, as is `len()` of a number; an unknown rule is a
      ValueError. */
  function ParseRule(outliers: seq<Item>): (r: Result<Rule>)
    requires NumericArgs(outliers, [])
    ensures r.Ok? ==> |outliers| == 2 && outliers[0].Text?
    ensures r.Ok? && r.value.Spike? <==> |outliers| == 2 && outliers[0] == Text("k")
    ensures r.Ok? && r.value.Under? <==> |outliers| == 2 && outliers[0] == Text("<")
    ensures r.Ok? && r.value.Over? <==> |outliers| == 2 && outliers[0] == Text(">")
    ensures r.Ok? && r.value.OutsideBand? <==>
      |outliers| == 2 && outliers[0] == Text("<>") && outliers[1].Items? && |outliers[1].xs| == 2
    ensures r == Err(ValueError) <==>
      |outliers| == 2 && !(outliers[0].Text? && outliers[0].text in ["k", "<", ">", "<>"])
  {
    if |outliers| != 2 then Err(TypeError)
    else if outliers[0] == Text("k") then Ok(Spike(outliers[1].x))
    else if outliers[0] == Text("<") then Ok(Under(outliers[1].x))
    else if outliers[0] == Text(">") then Ok(Over(outliers[1].x))
    else if outliers[0] == Text("<>") then
      if outliers[1].Items? && |outliers[1].xs| == 2 then Ok(OutsideBand(outliers[1].xs[0], outliers[1].xs[1]))
      else Err(TypeError)
    else Err(ValueError)
  }

  /** How convergence is judged. With an unknown kind the variable `error`
      is never assigned. */
  datatype Tolerance =
    | Fixed(e: real)          // ['value', e]
    | MinScaled(m: real)      // ['min', m]: m times the smallest kept |value|
    | MedianScaled(m: real)   // ['med', m]: m times the median of the kept values
    | Unset

  function ParseTolerance(errors: seq<Item>): (r: Result<Tolerance>)
    requires NumericArgs([], errors)
    ensures r.Err? <==> |errors| != 2
    ensures r.Ok? && r.value.Unset? <==> |errors| == 2 && !(errors[0].Text? && errors[0].text in ["value", "min", "med"])
  {
    if |errors| != 2 then Err(TypeError)
    else if errors[0] == Text("value") then Ok(Fixed(errors[1].x))
    else if errors[0] == Text("min") then Ok(MinScaled(errors[1].x))
    else if errors[0] == Text("med") then Ok(MedianScaled(errors[1].x))
    else Ok(Unset)
  }

  /** The numeric routines the code calls from numpy and scipy, and the two
      CiSSA runs: `fit` is `rc` of `group(*cissa(x, L, H), eigenvalue_proportion)`
      and `decompose` is `rc` of `group(*cissa(x, L, H), I)`. */
  datatype Oracles = Oracles(
    median: seq<real> -> real,
    mad: seq<real> -> real,
    ln: real -> real,
    fit: seq<real> -> Result<Groups>,
    decompose: seq<real> -> Result<Groups>)

  /** The validated arguments. s is data_per_unit_period. */
  datatype Config = Config(rule: Rule, tol: Tolerance, s: int, maxIter: int, remove: seq<Key>)

  // ---------------------------------------------------------------------
  // Masks
  // ---------------------------------------------------------------------

  /** Whether a threshold rule flags the value v. */
  predicate Flags(rule: Rule, v: real)
    requires !rule.Spike?
  {
    match rule
    case Under(lt) => v < lt
    case Over(gt) => v > gt
    case OutsideBand(lt, gt) => v > gt || v < lt
  }

  /** `x_new < l_t`, `x_new > g_t` or their `logical_or`. */
  function ThresholdMask(rule: Rule, x: seq<real>): (out: seq<bool>)
    requires !rule.Spike?
    ensures |out| == |x|
    ensures rule.Under? ==> forall i :: 0 <= i < |x| ==> (out[i] <==> x[i] < rule.lt)
    ensures rule.Over? ==> forall i :: 0 <= i < |x| ==> (out[i] <==> x[i] > rule.gt)
    ensures rule.OutsideBand? ==> forall i :: 0 <= i < |x| ==> (out[i] <==> x[i] > rule.gt || x[i] < rule.lt)
  {
    seq(|x|, i requires 0 <= i < |x| => Flags(rule, x[i]))
  }

  /** The stationary filter `np.convolve([1, -1], [1, 0, ..., 0, -1])` with
      s - 1 zeros: the coefficients of the first difference of the seasonal
      difference, s + 2 of them. */
  function Theta(s: int): (b: seq<real>)
    requires s >= 1
    ensures |b| == s + 2
    ensures b[0] == 1.0 && b[s + 1] == 1.0
    ensures s > 1 ==> b[1] == -1.0 && b[s] == -1.0
    ensures s == 1 ==> b[1] == -2.0
    ensures forall m :: 2 <= m < s ==> b[m] == 0.0
  {
    seq(s + 2, m requires 0 <= m < s + 2 => Seasonal(s, m) - Seasonal(s, m - 1))
  }

  /** The seasonal difference `[1, 0, ..., 0, -1]`, zero outside 0..s. */
  function Seasonal(s: int, m: int): real
  {
    if m == 0 then 1.0 else if m == s then -1.0 else 0.0
  }

  /** `lfilter(b, 1, x)`: the FIR filter from rest, output t being the sum
      of b[j]*x[t-j] over the j that reach back no further than x[0]. */
  function Fir(b: seq<real>, x: seq<real>): (y: seq<real>)
    ensures |y| == |x|
  {
    seq(|x|, t requires 0 <= t < |x| => Sum(FirTerms(b, x, t)))
  }

  function FirTerms(b: seq<real>, x: seq<real>, t: int): seq<real>
    requires 0 <= t < |x|
  {
    seq(Min(t + 1, |b|), j requires 0 <= j < Min(t + 1, |b|) => b[j] * x[t - j])
  }

  /** `np.log` applied to every value. */
  function Logs(ln: real -> real, x: seq<real>): (y: seq<real>)
    ensures |y| == |x| && forall i :: 0 <= i < |x| ==> y[i] == ln(x[i])
  {
    seq(|x|, i requires 0 <= i < |x| => ln(x[i]))
  }

  /** The filtered series of the 'k' rule: logs when every value is
      positive, then the stationary filter. */
  function Filtered(x: seq<real>, s: int, ln: real -> real): (d: seq<real>)
    requires s >= 1 && |x| > 0
    ensures |d| == |x|
  {
    Fir(Theta(s), if MinOf(x) > 0.0 then Logs(ln, x) else x)
  }

  /** The 'k' rule (pycissa.py:977-988). The first `ini - 1 = s + 1` filtered
      values are replaced by their median me before comparing |y - me| with
      k times the MAD. np.min of an empty series is a ValueError; a series
      shorter than s + 1 makes the mask longer than x, and indexing with it
      an IndexError; with exactly s + 1 values the median is nan and no
      comparison holds. */
  function SpikeMask(x: seq<real>, s: int, k: real, o: Oracles): (r: Result<seq<bool>>)
    requires s >= 1
    ensures r.Ok? ==> |r.value| == |x|
    ensures r.Err? <==> |x| < s + 1 || |x| == 0
  {
    if |x| == 0 then Err(ValueError)
    else if |x| < s + 1 then Err(IndexError)
    else if |x| == s + 1 then Ok(seq(|x|, i => false))
    else
      var tail := Filtered(x, s, o.ln)[s + 1..];
      var me, se := o.median(tail), o.mad(tail);
      var y := seq(s + 1, i => me) + tail;
      Ok(seq(|x|, i requires 0 <= i < |x| => Abs(y[i] - me) > k * se))
  }

  function Mask(rule: Rule, x: seq<real>, s: int, o: Oracles): (r: Result<seq<bool>>)
    requires s >= 1
    ensures r.Ok? ==> |r.value| == |x|
    ensures !rule.Spike? ==> r == Ok(ThresholdMask(rule, x))
  {
    if rule.Spike? then SpikeMask(x, s, rule.k, o) else Ok(ThresholdMask(rule, x))
  }

  // ---------------------------------------------------------------------
  // Seeding and updating the flagged values
  // ---------------------------------------------------------------------

  /** `x_new[~out]`: the unflagged values, in order. */
  function Kept(x: seq<real>, out: seq<bool>): (v: seq<real>)
    requires |out| == |x|
    ensures |v| <= |x|
    ensures |v| == 0 <==> forall i :: 0 <= i < |x| ==> out[i]
    ensures forall i :: 0 <= i < |x| && !out[i] ==> x[i] in v
    ensures forall e :: e in v ==> exists i :: 0 <= i < |x| && !out[i] && x[i] == e
  {
    if |x| == 0 then []
    else
      var n := |x| - 1;
      var v := Kept(x[..n], out[..n]);
      assert forall i :: 0 <= i < n ==> x[..n][i] == x[i] && out[..n][i] == out[i];
      v + (if out[n] then [] else [x[n]])
  }

  /** `x[out] = v`: the flagged positions take the values of v, the others
      keep theirs. */
  function UpdateMasked(x: seq<real>, out: seq<bool>, v: seq<real>): (y: seq<real>)
    requires |out| == |x| == |v|
    ensures |y| == |x| && forall i :: 0 <= i < |x| ==> y[i] == if out[i] then v[i] else x[i]
  {
    seq(|x|, i requires 0 <= i < |x| => if out[i] then v[i] else x[i])
  }

  /** `x[out] = mu`. */
  function Seed(x: seq<real>, out: seq<bool>, mu: real): (y: seq<real>)
    requires |out| == |x|
    ensures |y| == |x| && forall i :: 0 <= i < |x| ==> y[i] == if out[i] then mu else x[i]
  {
    UpdateMasked(x, out, seq(|x|, _ => mu))
  }

  /** `np.max(np.abs(a - b))`. */
  function MaxAbsDiff(a: seq<real>, b: seq<real>): (m: real)
    requires |a| == |b| > 0
    ensures forall i :: 0 <= i < |a| ==> Abs(a[i] - b[i]) <= m
    ensures exists i :: 0 <= i < |a| && m == Abs(a[i] - b[i])
  {
    var d := seq(|a|, i requires 0 <= i < |a| => Abs(a[i] - b[i]));
    var m := MaxOf(d);
    assert forall i :: 0 <= i < |a| ==> d[i] == Abs(a[i] - b[i]) && d[i] <= m;
    m
  }

  /** `np.max` of a non-empty array. */
  function MaxOf(v: seq<real>): (m: real)
    requires |v| > 0
    ensures m in v && forall i :: 0 <= i < |v| ==> v[i] <= m
  {
    if |v| == 1 then v[0]
    else
      var m := MaxOf(v[..|v| - 1]);
      if v[|v| - 1] > m then v[|v| - 1] else m
  }

  /** The tolerance of this pass. */
  function ToleranceValue(tol: Tolerance, kept: seq<real>, mu: real): (r: Result<real>)
    requires |kept| > 0
    ensures r.Err? <==> tol.Unset?
    ensures r.Ok? && tol.Fixed? ==> r.value == tol.e
  {
    match tol
    case Fixed(e) => Ok(e)
    case MinScaled(m) => Ok(Abs(m * MinOf(seq(|kept|, i requires 0 <= i < |kept| => Abs(kept[i])))))
    case MedianScaled(m) => Ok(Abs(m * mu))
    case Unset => Err(UnboundLocalError)
  }

  /** `temp_array`: zeros of x's length plus every group's component; a
      component of another length does not broadcast (ValueError). */
  function Accumulate(n: nat, rc: Groups): (r: Result<seq<real>>)
    ensures r.Ok? ==> |r.value| == n
    ensures r.Ok? <==> forall g :: 0 <= g < |rc| ==> |rc[g].1| == n
  {
    if |rc| == 0 then Ok(seq(n, _ => 0.0))
    else
      match Accumulate(n, rc[..|rc| - 1])
      case Err(e) => Err(e)
      case Ok(acc) =>
        assert forall g :: 0 <= g < |rc| - 1 ==> rc[..|rc| - 1][g] == rc[g];
        var c := rc[|rc| - 1].1;
        if |c| != n then Err(ValueError)
        else Ok(seq(n, i requires 0 <= i < n => acc[i] + c[i]))
  }

  // ---------------------------------------------------------------------
  // The loops
  // ---------------------------------------------------------------------

  /** The inner `while` (pycissa.py:1017-1029): while the last update moved
      some value by more than the tolerance, refit and replace the flagged
      values. The code sets no bound; fuel stands for one. */
  function Inner(o: Oracles, xNew: seq<real>, xOld: seq<real>, out: seq<bool>, error: real, fuel: nat):
    (r: Result<(seq<real>, seq<real>)>)
    requires |xNew| == |xOld| == |out| > 0
    ensures r.Ok? ==> |r.value.0| == |xNew| && |r.value.1| == |xNew|
    ensures r.Ok? ==> MaxAbsDiff(r.value.1, r.value.0) <= error
    decreases fuel
  {
    if MaxAbsDiff(xOld, xNew) <= error then Ok((xNew, xOld))
    else if fuel == 0 then Err(OutOfFuel)
    else
      match o.fit(xNew)
      case Err(e) => Err(e)
      case Ok(rc) =>
        match Accumulate(|xNew|, rc)
        case Err(e) => Err(e)
        case Ok(temp) => Inner(o, UpdateMasked(xNew, out, temp), xNew, out, error, fuel - 1)
  }

  /** One outer pass (pycissa.py:976-1029): flag, seed with the median of
      the kept values, and run the inner loop. With every value flagged,
      `np.max` of the empty kept array is a ValueError. Returns x_new, x_old
      and the tolerance. */
  function Pass(c: Config, o: Oracles, xNew: seq<real>, xOld: seq<real>, fuel: nat):
    (r: Result<(seq<real>, seq<real>, real)>)
    requires c.s >= 1 && |xOld| == |xNew|
    ensures r.Ok? ==> |xNew| > 0 && |r.value.0| == |xNew| && |r.value.1| == |xNew|
  {
    match Mask(c.rule, xNew, c.s, o)
    case Err(e) => Err(e)
    case Ok(out) =>
      var kept := Kept(xNew, out);
      if |kept| == 0 then Err(ValueError)
      else
        var mu := o.median(kept);
        match ToleranceValue(c.tol, kept, mu)
        case Err(e) => Err(e)
        case Ok(error) =>
          match Inner(o, Seed(xNew, out, mu), xOld, out, error, fuel)
          case Err(e) => Err(e)
          case Ok(state) => Ok((state.0, state.1, error))
  }

  /** The outer `while iter_i > 0` (pycissa.py:973-1044) from a pass that
      starts with counter iter after `passes` passes. A pass that moved x_ca
      by more than the tolerance raises the counter, one that did not sets
      it to 0 and ends the loop; a counter above max_iter gives up (None).
      Returns the corrected series and the number of passes. */
  function Outer(c: Config, o: Oracles, xNew: seq<real>, xOld: seq<real>, xCa: seq<real>,
                 iter: int, passes: nat, fuel: nat): (r: Result<(Option<seq<real>>, nat)>)
    requires c.s >= 1 && |xOld| == |xNew| == |xCa|
    ensures r.Ok? ==> passes < r.value.1 && (r.value.0.Some? ==> |r.value.0.value| == |xNew|)
    decreases c.maxIter - iter
  {
    match Pass(c, o, xNew, xOld, fuel)
    case Err(e) => Err(e)
    case Ok(state) =>
      var next := if MaxAbsDiff(xCa, state.0) > state.2 then iter + 1 else 0;
      if next > c.maxIter then Ok((None, passes + 1))
      else if next == 0 then Ok((Some(state.0), passes + 1))
      else Outer(c, o, state.0, state.1, state.0, next, passes + 1, fuel)
  }

  // ---------------------------------------------------------------------
  // The final pass and the whole function
  // ---------------------------------------------------------------------

  /** The component stored under key k in rc, if any. */
  function Lookup(rc: Groups, k: Key): (r: Option<seq<real>>)
    ensures r.Some? <==> exists g :: 0 <= g < |rc| && rc[g].0 == k
    ensures r.Some? ==> exists g :: 0 <= g < |rc| && rc[g] == (k, r.value)
  {
    if |rc| == 0 then None
    else if rc[0].0 == k then Some(rc[0].1)
    else
      var r := Lookup(rc[1..], k);
      assert forall g :: 1 <= g < |rc| ==> rc[1..][g - 1] == rc[g];
      r
  }

  /** `x -= rc[k]`. */
  function Subtract(x: seq<real>, rc: Groups, k: Key): (r: Result<seq<real>>)
    ensures r.Ok? ==> (Lookup(rc, k).Some? && |Lookup(rc, k).value| == |x| && |r.value| == |x| &&
      forall i :: 0 <= i < |x| ==> r.value[i] == x[i] - Lookup(rc, k).value[i])
    ensures r.Err? ==> r.error == (if Lookup(rc, k).None? then KeyError else ValueError)
  {
    match Lookup(rc, k)
    case None => Err(KeyError)
    case Some(v) => if |v| != |x| then Err(ValueError) else Ok(seq(|x|, i requires 0 <= i < |x| => x[i] - v[i]))
  }

  /** `for component_k in components_to_remove: x_casa -= rc[component_k]`. */
  function Remove(x: seq<real>, rc: Groups, keys: seq<Key>): (r: Result<seq<real>>)
    ensures r.Ok? ==> |r.value| == |x|
  {
    if |keys| == 0 then Ok(x)
    else
      match Remove(x, rc, keys[..|keys| - 1])
      case Err(e) => Err(e)
      case Ok(y) => Subtract(y, rc, keys[|keys| - 1])
  }

  /** What the function returns when the loop settles: `(x_ca, x_casa,
      rc)`. */
  datatype Corrected = Corrected(xCa: seq<real>, xCasa: seq<real>, rc: Groups)

  /** The loop and the final decomposition, before the result is packed:
      the corrected series, it with the components removed, and rc. */
  function Run(c: Config, o: Oracles, x: seq<real>, fuel: nat): Result<Option<Corrected>>
    requires c.s >= 1
  {
    match Outer(c, o, x, x, x, 1, 0, fuel)
    case Err(e) => Err(e)
    case Ok((None, _)) => Ok(None)
    case Ok((Some(xCa), _)) =>
      match o.decompose(xCa)
      case Err(e) => Err(e)
      case Ok(rc) =>
        match Remove(xCa, rc, c.remove)
        case Err(e) => Err(e)
        case Ok(xCasa) => Ok(Some(Corrected(xCa, xCasa, rc)))
  }

  /** The validated configuration, or the error the argument checks raise:
      the outliers and errors lists first, then the rule, then the
      stationary filter, whose `np.zeros(s - 1)` rejects s < 1. */
  function Configure(outliers: seq<Item>, errors: seq<Item>, s: int, maxIter: int, remove: seq<Key>):
    (r: Result<Config>)
    requires NumericArgs(outliers, errors)
    ensures r.Ok? ==> r.value.s == s && r.value.s >= 1 && r.value.maxIter == maxIter && r.value.remove == remove
    ensures r.Ok? ==> ParseRule(outliers) == Ok(r.value.rule) && ParseTolerance(errors) == Ok(r.value.tol)
    ensures s < 1 ==> r.Err?
  {
    if |outliers| != 2 || |errors| != 2 then Err(TypeError)
    else
      match ParseRule(outliers)
      case Err(e) => Err(e)
      case Ok(rule) =>
        if s < 1 then Err(ValueError)
        else Ok(Config(rule, ParseTolerance(errors).value, s, maxIter, remove))
  }

  /** `cissa_outlier` as written: `x_casa = x_ca` binds the same array, so
      the in-place `-=` removes the components from the returned x_ca as
      well, and both results are the adjusted series. None is the
      `(None, None)` of giving up. */
  function CissaOutlierSpec(x: seq<real>, outliers: seq<Item>, errors: seq<Item>, s: int, maxIter: int,
                            remove: seq<Key>, o: Oracles, fuel: nat): Result<Option<Corrected>>
    requires NumericArgs(outliers, errors)
  {
    match Configure(outliers, errors, s, maxIter, remove)
    case Err(e) => Err(e)
    case Ok(c) =>
      match Run(c, o, x, fuel)
      case Ok(Some(r)) => Ok(Some(Corrected(r.xCasa, r.xCasa, r.rc)))
      case other => other
  }

  /** `cissa_outlier` with `x_casa = x_ca.copy()`: x_ca is the corrected
      series the loop produced. */
  function CissaOutlierIntended(x: seq<real>, outliers: seq<Item>, errors: seq<Item>, s: int, maxIter: int,
                                remove: seq<Key>, o: Oracles, fuel: nat): Result<Option<Corrected>>
    requires NumericArgs(outliers, errors)
  {
    match Configure(outliers, errors, s, maxIter, remove)
    case Err(e) => Err(e)
    case Ok(c) => Run(c, o, x, fuel)
  }

  // ---------------------------------------------------------------------
  // The code, loop by loop
  // ---------------------------------------------------------------------

  /** The inner convergence loop (pycissa.py:1017-1029). */
  method InnerLoop(o: Oracles, xNew0: seq<real>, xOld0: seq<real>, out: seq<bool>, error: real, fuel: nat)
    returns (r: Result<(seq<real>, seq<real>)>)
    requires |xNew0| == |xOld0| == |out| > 0
    ensures r == Inner(o, xNew0, xOld0, out, error, fuel)
  {
    var xNew, xOld, f := xNew0, xOld0, fuel;
    while MaxAbsDiff(xOld, xNew) > error
      invariant |xNew| == |xOld| == |out|
      invariant Inner(o, xNew, xOld, out, error, f) == Inner(o, xNew0, xOld0, out, error, fuel)
      decreases f
    {
      ghost var spec := Inner(o, xNew, xOld, out, error, f);
      if f == 0 {
        return Err(OutOfFuel);
      }
      var rc := o.fit(xNew);
      if rc.Err? {
        assert spec == Err(rc.error);
        return Err(rc.error);
      }
      var temp := Accumulate(|xNew|, rc.value);
      if temp.Err? {
        assert spec == Err(temp.error);
        return Err(temp.error);
      }
      var next := UpdateMasked(xNew, out, temp.value);
      assert spec == Inner(o, next, xNew, out, error, f - 1);
      xOld, xNew := xNew, next;
      f := f - 1;
    }
    assert Inner(o, xNew, xOld, out, error, f) == Ok((xNew, xOld));
    return Ok((xNew, xOld));
  }

  /** One outer pass as the code runs it (pycissa.py:976-1029). */
  method PassStep(c: Config, o: Oracles, xNew: seq<real>, xOld: seq<real>, fuel: nat)
    returns (r: Result<(seq<real>, seq<real>, real)>)
    requires c.s >= 1 && |xOld| == |xNew|
    ensures r == Pass(c, o, xNew, xOld, fuel)
  {
    var out := Mask(c.rule, xNew, c.s, o);
    if out.Err? {
      return Err(out.error);
    }
    var kept := Kept(xNew, out.value);
    if |kept| == 0 {
      return Err(ValueError);
    }
    var mu := o.median(kept);
    var error := ToleranceValue(c.tol, kept, mu);
    if error.Err? {
      return Err(error.error);
    }
    var inner := InnerLoop(o, Seed(xNew, out.value, mu), xOld, out.value, error.value, fuel);
    if inner.Err? {
      return Err(inner.error);
    }
    return Ok((inner.value.0, inner.value.1, error.value));
  }

  /** The counter after a pass that ends with x_new, given the x_ca before
      it. */
  function NextIter(xCa: seq<real>, xNew: seq<real>, error: real, iter: int): int
    requires |xCa| == |xNew| > 0
  {
    if MaxAbsDiff(xCa, xNew) > error then iter + 1 else 0
  }

  /** Outer after one successful pass. */
  lemma OuterUnfold(c: Config, o: Oracles, xNew: seq<real>, xOld: seq<real>, xCa: seq<real>,
                    iter: int, passes: nat, fuel: nat)
    requires c.s >= 1 && |xOld| == |xNew| == |xCa| && Pass(c, o, xNew, xOld, fuel).Ok?
    ensures var p := Pass(c, o, xNew, xOld, fuel).value;
      var next := NextIter(xCa, p.0, p.2, iter);
      Outer(c, o, xNew, xOld, xCa, iter, passes, fuel) ==
        if next > c.maxIter then Ok((None, passes + 1))
        else if next == 0 then Ok((Some(p.0), passes + 1))
        else Outer(c, o, p.0, p.1, p.0, next, passes + 1, fuel)
  {
  }

  /** The outer loop (pycissa.py:972-1044): passes until one leaves x_ca
      where it was, or the counter passes max_iter. */
  method OuterLoop(c: Config, o: Oracles, x: seq<real>, fuel: nat) returns (r: Result<(Option<seq<real>>, nat)>)
    requires c.s >= 1
    ensures r == Outer(c, o, x, x, x, 1, 0, fuel)
  {
    var xNew, xOld, xCa := x, x, x;
    var iter := 1;
    var passes: nat := 0;
    while iter > 0
      invariant |xNew| == |xOld| == |xCa| == |x| && 0 <= iter <= Max(c.maxIter, 1)
      invariant iter > 0 ==> Outer(c, o, xNew, xOld, xCa, iter, passes, fuel) == Outer(c, o, x, x, x, 1, 0, fuel)
      invariant iter == 0 ==> Outer(c, o, x, x, x, 1, 0, fuel) == Ok((Some(xCa), passes))
      decreases if iter == 0 then 0 else Max(c.maxIter, 1) + 1 - iter
    {
      var p := PassStep(c, o, xNew, xOld, fuel);
      if p.Err? {
        return Err(p.error);
      }
      OuterUnfold(c, o, xNew, xOld, xCa, iter, passes, fuel);
      iter := NextIter(xCa, p.value.0, p.value.2, iter);
      xNew, xOld, xCa := p.value.0, p.value.1, p.value.0;
      passes := passes + 1;
      if iter > c.maxIter {
        return Ok((None, passes));
      }
    }
    return Ok((Some(xCa), passes));
  }

  /** `x -= v` in place. */
  method SubtractInPlace(a: array<real>, v: seq<real>)
    requires |v| == a.Length
    modifies a
    ensures forall i :: 0 <= i < a.Length ==> a[i] == old(a[i]) - v[i]
  {
    for i := 0 to a.Length
      invariant forall m :: 0 <= m < i ==> a[m] == old(a[m]) - v[m]
      invariant forall m :: i <= m < a.Length ==> a[m] == old(a[m])
    {
      a[i] := a[i] - v[i];
    }
  }

  /** The removal loop (pycissa.py:1051-1052) on the array a. */
  method RemoveInPlace(a: array<real>, rc: Groups, keys: seq<Key>) returns (r: Result<()>)
    modifies a
    ensures r.Ok? <==> Remove(old(a[..]), rc, keys).Ok?
    ensures r.Err? ==> r.error == Remove(old(a[..]), rc, keys).error
    ensures r.Ok? ==> a[..] == Remove(old(a[..]), rc, keys).value
  {
    ghost var start := a[..];
    for j := 0 to |keys|
      invariant Remove(start, rc, keys[..j]) == Ok(a[..])
    {
      assert keys[..j + 1][..j] == keys[..j];
      var component := Lookup(rc, keys[j]);
      if component.None? || |component.value| != a.Length {
        RemoveStops(start, rc, keys, j + 1);
        return Err(if component.None? then KeyError else ValueError);
      }
      ghost var before := a[..];
      SubtractInPlace(a, component.value);
      assert a[..] == Subtract(before, rc, keys[j]).value;
    }
    assert keys[..|keys|] == keys;
    return Ok(());
  }

  /** The result of `cissa_outlier` as arrays: x_ca and x_casa are the same
      array. */
  datatype CorrectedArrays = CorrectedArrays(xCa: array<real>, xCasa: array<real>, rc: Groups)

  /** `cissa_outlier` as the code runs it. The caller's x is only read; the
      final pass subtracts the removed components in place through x_casa,
      which is x_ca. */
  method CissaOutlier(x: array<real>, outliers: seq<Item>, errors: seq<Item>, s: int, maxIter: int,
                      remove: seq<Key>, o: Oracles, fuel: nat) returns (r: Result<Option<CorrectedArrays>>)
    requires NumericArgs(outliers, errors)
    ensures var spec := CissaOutlierSpec(x[..], outliers, errors, s, maxIter, remove, o, fuel);
      (r.Err? <==> spec.Err?) && (r.Err? ==> r.error == spec.error) &&
      (r.Ok? ==> (r.value.None? <==> spec.value.None?)) &&
      (r.Ok? && r.value.Some? ==>
        r.value.value.xCa == r.value.value.xCasa && fresh(r.value.value.xCa) &&
        r.value.value.xCa[..] == spec.value.value.xCa && r.value.value.xCasa[..] == spec.value.value.xCasa &&
        r.value.value.rc == spec.value.value.rc)
  {
    var cfg := Configure(outliers, errors, s, maxIter, remove);
    if cfg.Err? {
      return Err(cfg.error);
    }
    r := RunArrays(cfg.value, o, x[..], fuel);
  }

  /** The loops and the final removal of `cissa_outlier` for a validated
      configuration: x_casa is x_ca, so both hold the series with the
      components removed. */
  method RunArrays(c: Config, o: Oracles, xs: seq<real>, fuel: nat) returns (r: Result<Option<CorrectedArrays>>)
    requires c.s >= 1
    ensures var run := Run(c, o, xs, fuel);
      (r.Err? <==> run.Err?) && (r.Err? ==> r.error == run.error) &&
      (r.Ok? ==> (r.value.None? <==> run.value.None?)) &&
      (r.Ok? && r.value.Some? ==>
        r.value.value.xCa == r.value.value.xCasa && fresh(r.value.value.xCa) &&
        r.value.value.xCa[..] == run.value.value.xCasa && r.value.value.rc == run.value.value.rc)
  {
    var run := OuterLoop(c, o, xs, fuel);
    if run.Err? {
      return Err(run.error);
    }
    if run.value.0.None? {
      return Ok(None);
    }
    var corrected := run.value.0.value;
    var rc := o.decompose(corrected);
    if rc.Err? {
      return Err(rc.error);
    }
    var xCa := new real[|corrected|](i requires 0 <= i < |corrected| => corrected[i]);
    assert xCa[..] == corrected;
    var xCasa := xCa;
    var removed := RemoveInPlace(xCasa, rc.value, c.remove);
    if removed.Err? {
      return Err(removed.error);
    }
    return Ok(Some(CorrectedArrays(xCa, xCasa, rc.value)));
  }

  /** An error while removing components stays the result with more keys. */
  lemma {:induction false} RemoveStops(x: seq<real>, rc: Groups, keys: seq<Key>, n: nat)
    requires n <= |keys| && Remove(x, rc, keys[..n]).Err?
    ensures Remove(x, rc, keys) == Remove(x, rc, keys[..n])
    decreases |keys|
  {
    if n < |keys| {
      var m := |keys| - 1;
      assert keys[..m][..n] == keys[..n];
      RemoveStops(x, rc, keys[..m], n);
    } else {
      assert keys[..n] == keys;
    }
  }

  // ---------------------------------------------------------------------
  // Properties
  // ---------------------------------------------------------------------

  /** With k >= 0 and a MAD that is never negative, the 'k' rule never
      flags the first s + 1 positions: they hold the median itself. */
  lemma SpikeSparesHead(x: seq<real>, s: int, k: real, o: Oracles)
    requires s >= 1 && SpikeMask(x, s, k, o).Ok? && k >= 0.0
    requires forall v :: o.mad(v) >= 0.0
    ensures |x| >= s + 1 && forall i :: 0 <= i < s + 1 ==> !SpikeMask(x, s, k, o).value[i]
  {
    if |x| > s + 1 {
      var tail := Filtered(x, s, o.ln)[s + 1..];
      var me, se := o.median(tail), o.mad(tail);
      var y := seq(s + 1, i => me) + tail;
      assert forall i :: 0 <= i < s + 1 ==> y[i] == me;
      assert k * se >= 0.0;
    }
  }

  /** The inner loop changes only flagged positions. */
  lemma {:induction false} InnerKeepsUnflagged(o: Oracles, xNew: seq<real>, xOld: seq<real>, out: seq<bool>,
                                               error: real, fuel: nat)
    requires |xNew| == |xOld| == |out| > 0 && Inner(o, xNew, xOld, out, error, fuel).Ok?
    ensures forall i :: 0 <= i < |xNew| && !out[i] ==> Inner(o, xNew, xOld, out, error, fuel).value.0[i] == xNew[i]
    decreases fuel
  {
    if MaxAbsDiff(xOld, xNew) > error {
      var temp := Accumulate(|xNew|, o.fit(xNew).value).value;
      InnerKeepsUnflagged(o, UpdateMasked(xNew, out, temp), xNew, out, error, fuel - 1);
    }
  }

  /** A pass changes only the positions its mask flags. */
  lemma PassKeepsUnflagged(c: Config, o: Oracles, xNew: seq<real>, xOld: seq<real>, fuel: nat)
    requires c.s >= 1 && |xOld| == |xNew| && Pass(c, o, xNew, xOld, fuel).Ok?
    ensures Mask(c.rule, xNew, c.s, o).Ok?
    ensures forall i :: 0 <= i < |xNew| && !Mask(c.rule, xNew, c.s, o).value[i] ==>
      Pass(c, o, xNew, xOld, fuel).value.0[i] == xNew[i]
  {
    var out := Mask(c.rule, xNew, c.s, o).value;
    var kept := Kept(xNew, out);
    var mu := o.median(kept);
    InnerKeepsUnflagged(o, Seed(xNew, out, mu), xOld, out, ToleranceValue(c.tol, kept, mu).value, fuel);
  }

  /** Under a threshold rule, a value that passes the rule is never
      changed: each pass re-flags exactly the values that fail it. */
  lemma {:induction false} OuterKeepsInliers(c: Config, o: Oracles, xNew: seq<real>, xOld: seq<real>, xCa: seq<real>,
                                             iter: int, passes: nat, fuel: nat)
    requires c.s >= 1 && |xOld| == |xNew| == |xCa| && !c.rule.Spike?
    requires Outer(c, o, xNew, xOld, xCa, iter, passes, fuel).Ok?
    requires Outer(c, o, xNew, xOld, xCa, iter, passes, fuel).value.0.Some?
    ensures forall i :: 0 <= i < |xNew| && !Flags(c.rule, xNew[i]) ==>
      Outer(c, o, xNew, xOld, xCa, iter, passes, fuel).value.0.value[i] == xNew[i]
    decreases c.maxIter - iter
  {
    PassKeepsUnflagged(c, o, xNew, xOld, fuel);
    var p := Pass(c, o, xNew, xOld, fuel).value;
    OuterUnfold(c, o, xNew, xOld, xCa, iter, passes, fuel);
    var next := NextIter(xCa, p.0, p.2, iter);
    if next != 0 && next <= c.maxIter {
      OuterKeepsInliers(c, o, p.0, p.1, p.0, next, passes + 1, fuel);
    }
  }

  /** The outer loop runs at most max_iter passes (at least one), and when
      it gives up with max_iter >= 0 it has run exactly that many; it can
      only settle when max_iter >= 0. */
  lemma {:induction false} OuterPasses(c: Config, o: Oracles, xNew: seq<real>, xOld: seq<real>, xCa: seq<real>,
                                       iter: int, passes: nat, fuel: nat)
    requires c.s >= 1 && |xOld| == |xNew| == |xCa| && iter >= 1
    requires Outer(c, o, xNew, xOld, xCa, iter, passes, fuel).Ok?
    ensures var r := Outer(c, o, xNew, xOld, xCa, iter, passes, fuel).value;
      r.1 <= passes + Max(c.maxIter - iter + 1, 1) &&
      (r.0.None? && c.maxIter >= 0 ==> r.1 == passes + Max(c.maxIter - iter + 1, 1)) &&
      (r.0.Some? ==> c.maxIter >= 0)
    decreases c.maxIter - iter
  {
    var p := Pass(c, o, xNew, xOld, fuel).value;
    OuterUnfold(c, o, xNew, xOld, xCa, iter, passes, fuel);
    var next := NextIter(xCa, p.0, p.2, iter);
    if next != 0 && next <= c.maxIter {
      OuterPasses(c, o, p.0, p.1, p.0, next, passes + 1, fuel);
    }
  }

  /** Every key names a component of length n. */
  predicate Removable(rc: Groups, keys: seq<Key>, n: int)
  {
    forall j :: 0 <= j < |keys| ==> Lookup(rc, keys[j]).Some? && |Lookup(rc, keys[j]).value| == n
  }

  /** The values the removed components hold at position i. */
  function RemovedAt(rc: Groups, keys: seq<Key>, n: int, i: int): (v: seq<real>)
    requires Removable(rc, keys, n) && 0 <= i < n
    ensures |v| == |keys|
  {
    seq(|keys|, j requires 0 <= j < |keys| => Lookup(rc, keys[j]).value[i])
  }

  /** The removal succeeds exactly when every key is in rc with a component
      of x's length, and then takes from each value the sum of the removed
      components there. */
  lemma {:induction false} RemoveMeaning(x: seq<real>, rc: Groups, keys: seq<Key>)
    ensures Remove(x, rc, keys).Ok? <==> Removable(rc, keys, |x|)
    ensures Remove(x, rc, keys).Ok? ==>
      forall i :: 0 <= i < |x| ==> Remove(x, rc, keys).value[i] == x[i] - Sum(RemovedAt(rc, keys, |x|, i))
    decreases |keys|
  {
    if |keys| > 0 {
      var n := |keys| - 1;
      var front := keys[..n];
      RemoveMeaning(x, rc, front);
      assert forall j :: 0 <= j < n ==> front[j] == keys[j];
      if Remove(x, rc, keys).Ok? {
        assert Removable(rc, keys, |x|);
        forall i | 0 <= i < |x|
          ensures Remove(x, rc, keys).value[i] == x[i] - Sum(RemovedAt(rc, keys, |x|, i))
        {
          var w := RemovedAt(rc, keys, |x|, i);
          assert w[..n] == RemovedAt(rc, front, |x|, i);
        }
      }
    }
  }

  /** As written, the returned x_ca is the adjusted series x_casa, and both
      are what the copying version returns as x_casa. */
  lemma AsWrittenAliases(x: seq<real>, outliers: seq<Item>, errors: seq<Item>, s: int, maxIter: int,
                         remove: seq<Key>, o: Oracles, fuel: nat)
    requires NumericArgs(outliers, errors)
    ensures var r := CissaOutlierSpec(x, outliers, errors, s, maxIter, remove, o, fuel);
      var fixed := CissaOutlierIntended(x, outliers, errors, s, maxIter, remove, o, fuel);
      (r.Ok? && r.value.Some? <==> fixed.Ok? && fixed.value.Some?) &&
      (r.Ok? && r.value.Some? ==>
        r.value.value == Corrected(fixed.value.value.xCasa, fixed.value.value.xCasa, fixed.value.value.rc))
  {
  }

  /** Oracles for the example below: median and MAD 0, the fit finds no
      component, the decomposition a seasonality of ones. */
  function ExampleOracles(): Oracles
  {
    Oracles(v => 0.0, v => 0.0, v => v, v => Ok([]), v => Ok([(Name("seasonality"), [1.0, 1.0])]))
  }

  /** Rule '<' 0, a fixed tolerance of 1, s = 1, at most 10 passes, and the
      seasonality removed. */
  function ExampleConfig(): Config
  {
    Config(Under(0.0), Fixed(1.0), 1, 10, [Name("seasonality")])
  }

  /** Nothing in [1, 2] is below 0: nothing is flagged and every value is kept. */
  lemma ExampleMask()
    ensures Mask(ExampleConfig().rule, [1.0, 2.0], 1, ExampleOracles()) == Ok([false, false])
    ensures Kept([1.0, 2.0], [false, false]) == [1.0, 2.0]
  {
    var x, out := [1.0, 2.0], [false, false];
    var m := ThresholdMask(ExampleConfig().rule, x);
    assert |m| == 2 && !m[0] && !m[1];
    assert m == out;
    assert Kept(x[..1], out[..1]) == [1.0];
  }

  /** With nothing flagged the seed is the series itself, so the inner loop
      stops at once. */
  lemma ExampleInner()
    ensures Seed([1.0, 2.0], [false, false], 0.0) == [1.0, 2.0]
    ensures Inner(ExampleOracles(), [1.0, 2.0], [1.0, 2.0], [false, false], 1.0, 1) == Ok(([1.0, 2.0], [1.0, 2.0]))
  {
    var x := [1.0, 2.0];
    MaxAbsDiffSelf(x);
    assert Seed(x, [false, false], 0.0) == x;
  }

  lemma MaxAbsDiffSelf(a: seq<real>)
    requires |a| > 0
    ensures MaxAbsDiff(a, a) == 0.0
  {
    var i :| 0 <= i < |a| && MaxAbsDiff(a, a) == Abs(a[i] - a[i]);
    assert a[i] - a[i] == 0.0;
    assert Abs(0.0) == 0.0;
  }

  /** Nothing in [1, 2] is below 0, so a pass leaves it as it is. */
  lemma ExamplePass()
    ensures Pass(ExampleConfig(), ExampleOracles(), [1.0, 2.0], [1.0, 2.0], 1) == Ok(([1.0, 2.0], [1.0, 2.0], 1.0))
  {
    ExampleMask();
    ExampleInner();
    assert ToleranceValue(ExampleConfig().tol, [1.0, 2.0], 0.0) == Ok(1.0);
  }

  /** The loop settles after its first pass, on [1, 2]. */
  lemma ExampleOuter()
    ensures Outer(ExampleConfig(), ExampleOracles(), [1.0, 2.0], [1.0, 2.0], [1.0, 2.0], 1, 0, 1) ==
      Ok((Some([1.0, 2.0]), 1))
  {
    ExamplePass();
    assert MaxAbsDiff([1.0, 2.0], [1.0, 2.0]) == 0.0;
  }

  /** Removing the ones from [1, 2] leaves [0, 1]. */
  lemma ExampleRemove()
    ensures Remove([1.0, 2.0], [(Name("seasonality"), [1.0, 1.0])], [Name("seasonality")]) == Ok([0.0, 1.0])
  {
    var x, rc := [1.0, 2.0], [(Name("seasonality"), [1.0, 1.0])];
    assert Lookup(rc, Name("seasonality")) == Some([1.0, 1.0]);
    var d := Subtract(x, rc, Name("seasonality")).value;
    assert |d| == 2 && d[0] == 0.0 && d[1] == 1.0;
    assert d == [0.0, 1.0];
    assert [Name("seasonality")][..0] == [];
  }

  /** The run returns [1, 2] and, with the ones removed, [0, 1]. */
  lemma ExampleRun()
    ensures Run(ExampleConfig(), ExampleOracles(), [1.0, 2.0], 1) ==
      Ok(Some(Corrected([1.0, 2.0], [0.0, 1.0], [(Name("seasonality"), [1.0, 1.0])])))
  {
    ExampleOuter();
    ExampleRemove();
    assert ExampleOracles().decompose([1.0, 2.0]) == Ok([(Name("seasonality"), [1.0, 1.0])]);
  }

  /** An input on which the returned x_ca differs from the corrected
      series: nothing is flagged in [1, 2], the loop settles at once, and
      removing a seasonality of ones takes x_ca to [0, 1]. */
  lemma AliasingExample()
    ensures var o, x, rc := ExampleOracles(), [1.0, 2.0], [(Name("seasonality"), [1.0, 1.0])];
      var outliers, errors := [Text("<"), Scalar(0.0)], [Text("value"), Scalar(1.0)];
      CissaOutlierSpec(x, outliers, errors, 1, 10, [Name("seasonality")], o, 1) ==
        Ok(Some(Corrected([0.0, 1.0], [0.0, 1.0], rc))) &&
      CissaOutlierIntended(x, outliers, errors, 1, 10, [Name("seasonality")], o, 1) ==
        Ok(Some(Corrected([1.0, 2.0], [0.0, 1.0], rc)))
  {
    assert Configure([Text("<"), Scalar(0.0)], [Text("value"), Scalar(1.0)], 1, 10, [Name("seasonality")]) ==
      Ok(ExampleConfig());
    ExampleRun();
  }

  /** The corrected series of the copying version keeps every value of x
      that passes a threshold rule. */
  lemma IntendedKeepsInliers(x: seq<real>, outliers: seq<Item>, errors: seq<Item>, s: int, maxIter: int,
                             remove: seq<Key>, o: Oracles, fuel: nat)
    requires NumericArgs(outliers, errors)
    requires CissaOutlierIntended(x, outliers, errors, s, maxIter, remove, o, fuel).Ok?
    requires CissaOutlierIntended(x, outliers, errors, s, maxIter, remove, o, fuel).value.Some?
    requires !(|outliers| == 2 && outliers[0] == Text("k"))
    ensures Configure(outliers, errors, s, maxIter, remove).Ok?
    ensures var rule := Configure(outliers, errors, s, maxIter, remove).value.rule;
      !rule.Spike? &&
      var r := CissaOutlierIntended(x, outliers, errors, s, maxIter, remove, o, fuel).value.value;
      |r.xCa| == |x| && forall i :: 0 <= i < |x| && !Flags(rule, x[i]) ==> r.xCa[i] == x[i]
  {
    var c := Configure(outliers, errors, s, maxIter, remove).value;
    OuterKeepsInliers(c, o, x, x, x, 1, 0, fuel);
  }
}
