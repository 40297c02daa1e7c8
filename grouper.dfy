/** The grouping step of CiSSA, `group(Z, psd, I, season_length,
    cycle_length, include_noise)` in CiSSA/pycissa.py: which frequencies form
    each group, the power spectral density folded onto the frequencies up to
    one half (`pzz`), and for every group the sum of its frequency components
    (`rc`) and its percentage of the folded psd (`sh`). */
module Grouper {
  import opened Common
  import opened Sorting
  import opened Decomposer

  /** A grouping dictionary `kg` in insertion order. The values are kept as
      floats, as the code stores them: seasonality indices need not be
      whole numbers. */
  type Groups = seq<(Key, seq<real>)>

  /** What a Python dict guarantees of its keys. */
  predicate UniqueKeys(kg: Groups)
  {
    forall i, j :: 0 <= i < j < |kg| ==> kg[i].0 != kg[j].0
  }

  // ---------------------------------------------------------------------
  // Section 1: the kind of grouping argument and its validation
  // ---------------------------------------------------------------------

  /** The four ways of grouping (`opc` 1 to 4 in the code). */
  datatype Mode =
    | Cadence(s: real)              // I data points per year
    | Explicit(groups: Groups)      // a dict of frequency groups
    | CumulativeShare(share: real)  // 0 < I < 1
    | Percentile(level: real)       // -1 < I < 0

  predicate Integral(v: real)
  {
    v.Floor as real == v
  }

  predicate IsNumber(I: PyArg)
  {
    I.PyInt? || I.PyFloat?
  }

  function NumberOf(I: PyArg): real
    requires IsNumber(I)
  {
    if I.PyInt? then I.i as real else I.f
  }

  /** The numeric branches, tried in the code's order. */
  function NumberMode(v: real): Result<Mode>
  {
    if Integral(v) && v > 0.0 then Ok(Cadence(v))
    else if 0.0 < v < 1.0 then Ok(CumulativeShare(v))
    else if -1.0 < v < 0.0 then Ok(Percentile(v))
    else Err(ValueError)
  }

  /** `type(I) is dict`, then `type(I) == int or type(I) == float`: a bool is
      neither, so True and False are rejected. */
  function Classify(I: PyArg): Result<Mode>
  {
    match I
    case PyDict(entries) => Ok(Explicit(entries))
    case PyInt(i) => NumberMode(i as real)
    case PyFloat(f) => NumberMode(f)
    case PyBool(_) => Err(ValueError)
    case PyOther => Err(ValueError)
  }

  /** Every argument lands in exactly one mode or is a ValueError. */
  lemma ClassifyCases(I: PyArg)
    ensures Classify(I).Err? ==> Classify(I).error == ValueError
    ensures Classify(I).Ok? && Classify(I).value.Explicit? <==> I.PyDict?
    ensures Classify(I).Ok? && Classify(I).value.Explicit? ==> Classify(I).value.groups == I.entries
    ensures Classify(I).Ok? && Classify(I).value.Cadence? <==>
      IsNumber(I) && NumberOf(I) > 0.0 && Integral(NumberOf(I))
    ensures Classify(I).Ok? && Classify(I).value.CumulativeShare? <==>
      IsNumber(I) && 0.0 < NumberOf(I) < 1.0
    ensures Classify(I).Ok? && Classify(I).value.Percentile? <==>
      IsNumber(I) && -1.0 < NumberOf(I) < 0.0
    ensures Classify(I).Ok? && !I.PyDict? ==>
      IsNumber(I) && NumberOf(I) == (match Classify(I).value
        case Cadence(s) => s
        case CumulativeShare(p) => p
        case Percentile(p) => p
        case Explicit(_) => 0.0)
  {
    if IsNumber(I) {
      var v := NumberOf(I);
      if Integral(v) && v > 0.0 {
        assert v >= 1.0;
      }
    }
  }

  /** `np.mod(a, b)` for b != 0: the remainder with the sign of b. */
  function FloatMod(a: real, b: real): (m: real)
    requires b != 0.0
  {
    a - b * ((a / b).Floor as real)
  }

  /** The remainder is zero exactly when b divides a a whole number of
      times. */
  lemma FloatModZero(a: real, b: real)
    requires b != 0.0
    ensures FloatMod(a, b) == 0.0 <==> Integral(a / b)
  {
    var q := (a / b).Floor as real;
    assert a == b * (a / b);
    if FloatMod(a, b) == 0.0 {
      assert b * q == b * (a / b);
    }
  }

  /** No value is shared by two arrays (`len(np.intersect1d(a, b)) == 0`). */
  predicate Disjoint(a: seq<real>, b: seq<real>)
  {
    forall i, j :: 0 <= i < |a| && 0 <= j < |b| ==> a[i] != b[j]
  }

  predicate PairwiseDisjoint(kg: Groups)
  {
    forall j, m :: 0 <= j < m < |kg| ==> Disjoint(kg[j].1, kg[m].1)
  }

  /** The checks of the mode against the window length L and the number of
      frequency columns F; failing any is a ValueError. */
  predicate Accepted(mode: Mode, L: int, F: int)
  {
    match mode
    case Cadence(s) => s != 0.0 && FloatMod(L as real, s) == 0.0
    case Explicit(groups) => |groups| <= F && PairwiseDisjoint(groups)
    case CumulativeShare(_) => true
    case Percentile(_) => true
  }

  /** The double loop over pairs of groups (pycissa.py:459-465). */
  method CheckDisjoint(kg: Groups) returns (ok: bool)
    ensures ok <==> PairwiseDisjoint(kg)
  {
    var G := |kg|;
    for j := 1 to Max(G, 1)
      invariant forall a, b :: 0 <= a < b < |kg| && a < j - 1 ==> Disjoint(kg[a].1, kg[b].1)
    {
      for m := j + 1 to G + 1
        invariant forall a, b :: 0 <= a < b < |kg| && a < j - 1 ==> Disjoint(kg[a].1, kg[b].1)
        invariant forall b :: j - 1 < b < m - 1 ==> Disjoint(kg[j - 1].1, kg[b].1)
      {
        if !Disjoint(kg[j - 1].1, kg[m - 1].1) {
          return false;
        }
      }
    }
    return true;
  }

  // ---------------------------------------------------------------------
  // Section 2: the psd folded onto frequencies up to 1/2
  // ---------------------------------------------------------------------

  function Doubled(s: seq<real>): (d: seq<real>)
    ensures |d| == |s| && forall i :: 0 <= i < |s| ==> d[i] == 2.0 * s[i]
  {
    seq(|s|, i requires 0 <= i < |s| => 2.0 * s[i])
  }

  /** `pzz` with Python slicing of `psd[1:F]` (odd L) or `psd[1:F-1]` and
      `psd[F-1]` (even L); an empty psd or an index out of range is an
      IndexError. */
  function Pzz(psd: seq<real>, F: int): (r: Result<seq<real>>)
    ensures r.Err? ==> r.error == IndexError
  {
    var L := |psd|;
    if L == 0 then Err(IndexError)
    else if L % 2 == 1 then Ok([psd[0]] + Doubled(Slice(psd, 1, F)))
    else match PyIndex(L, F - 1)
      case None => Err(IndexError)
      case Some(last) => Ok([psd[0]] + Doubled(Slice(psd, 1, F - 1)) + [psd[last]])
  }

  /** With the F = floor(L/2) + 1 columns that `cissa` produces, pzz has one
      entry per column: psd[0] once, the interior frequencies doubled (they
      stand for k and L - k), and the Nyquist frequency L/2 once when L is
      even. */
  lemma PzzOfSpectrum(psd: seq<real>)
    requires |psd| >= 1
    ensures var F := |psd| / 2 + 1; var r := Pzz(psd, F);
      r.Ok? && |r.value| == F && r.value[0] == psd[0] &&
      forall k :: 0 < k < F ==>
        r.value[k] == if |psd| % 2 == 0 && k == F - 1 then psd[k] else 2.0 * psd[k]
  {
    var L, F := |psd|, |psd| / 2 + 1;
    var pzz := Pzz(psd, F).value;
    if L % 2 == 1 {
      var d := Doubled(Slice(psd, 1, F));
      assert pzz == [psd[0]] + d;
      forall k | 0 < k < F
        ensures pzz[k] == 2.0 * psd[k]
      {
        assert pzz[k] == d[k - 1];
      }
    } else {
      var d := Doubled(Slice(psd, 1, F - 1));
      assert pzz == [psd[0]] + d + [psd[F - 1]];
      forall k | 0 < k < F - 1
        ensures pzz[k] == 2.0 * psd[k]
      {
        assert pzz[k] == d[k - 1];
      }
    }
  }

  /** For a psd with the symmetry of a real spectrum (psd[k] == psd[L-k]),
      folding keeps the total power: Σ pzz == Σ psd. This is the pairing of
      `cissa` applied to a single row. */
  lemma PzzTotal(psd: seq<real>)
    requires |psd| >= 1
    requires forall k :: 0 < k < |psd| ==> psd[k] == psd[|psd| - k]
    ensures Pzz(psd, |psd| / 2 + 1).Ok? && Sum(Pzz(psd, |psd| / 2 + 1).value) == Sum(psd)
  {
    var R := Singletons(psd);
    PzzOfSpectrum(psd);
    PairedSingletons(psd);
    assert RowOf(R, 0) == psd;
    PairingRowSums(R, 0);
  }

  /** psd as a matrix of L one-entry columns. */
  function Singletons(psd: seq<real>): (R: seq<seq<real>>)
    ensures Shape(R, |psd|, 1) && forall k :: 0 <= k < |psd| ==> R[k] == [psd[k]]
  {
    seq(|psd|, k requires 0 <= k < |psd| => [psd[k]])
  }

  /** Pairing the one-row matrix of a symmetric psd yields pzz. */
  lemma PairedSingletons(psd: seq<real>)
    requires |psd| >= 1
    requires forall k :: 0 < k < |psd| ==> psd[k] == psd[|psd| - k]
    ensures Pzz(psd, |psd| / 2 + 1).Ok?
    ensures RowOf(Paired(Singletons(psd)), 0) == Pzz(psd, |psd| / 2 + 1).value
  {
    var L, F := |psd|, |psd| / 2 + 1;
    PzzOfSpectrum(psd);
    var pzz := Pzz(psd, F).value;
    var R := Singletons(psd);
    var Z := Paired(R);
    FrequencyCount(L);
    forall f | 0 <= f < F
      ensures RowOf(Z, 0)[f] == pzz[f]
    {
      assert Z[f] == PairedColumn(R, f);
      if 0 < f <= NumPairs(L) {
        assert AddColumns(R[f], R[L - f])[0] == psd[f] + psd[L - f];
      }
    }
  }

  // ---------------------------------------------------------------------
  // Section 3: the groups of each mode
  // ---------------------------------------------------------------------

  function Reals(s: seq<int>): (v: seq<real>)
    ensures |v| == |s| && forall i :: 0 <= i < |s| ==> v[i] == s[i] as real
  {
    seq(|s|, i requires 0 <= i < |s| => s[i] as real)
  }

  /** `[int(x) for x in v]`. */
  function Truncs(v: seq<real>): (n: seq<int>)
    ensures |n| == |v| && forall i :: 0 <= i < |v| ==> n[i] == Trunc(v[i])
  {
    seq(|v|, i requires 0 <= i < |v| => Trunc(v[i]))
  }

  /** Every index of every group, in dictionary order (`current_k`). */
  function Flatten(kg: Groups): seq<int>
  {
    if |kg| == 0 then [] else Flatten(kg[..|kg| - 1]) + Truncs(kg[|kg| - 1].1)
  }

  /** `[x for x in range(0, n) if x not in current]`. */
  function Missing(n: int, current: seq<int>): (r: seq<int>)
    ensures forall x :: x in r <==> 0 <= x < n && x !in current
    ensures forall i, j :: 0 <= i < j < |r| ==> r[i] < r[j]
    ensures forall i :: 0 <= i < |r| ==> 0 <= r[i] < Max(n, 0)
  {
    if n <= 0 then []
    else Missing(n - 1, current) + (if n - 1 in current then [] else [n - 1])
  }

  /** The loop that collects `current_k` (pycissa.py:509-511). */
  method CollectIndices(kg: Groups) returns (current: seq<int>)
    ensures current == Flatten(kg)
  {
    current := [];
    for g := 0 to |kg|
      invariant current == Flatten(kg[..g])
    {
      assert kg[..g + 1][..g] == kg[..g];
      current := current + Truncs(kg[g].1);
    }
    assert kg[..|kg|] == kg;
  }

  /** `L*np.arange(1, floor(s/2)+1)/(season_length*s)`: the frequencies of
      the seasonal harmonics, entry j being the (j+1)-th harmonic. */
  function Seasonality(L: int, s: real, seasonLength: real): (v: seq<real>)
    requires seasonLength * s != 0.0
    ensures |v| == Max(0, (s / 2.0).Floor)
    ensures forall j :: 0 <= j < |v| ==> (seasonLength * s) * v[j] == (L as real) * ((j + 1) as real)
  {
    var v := seq(Max(0, (s / 2.0).Floor), j requires 0 <= j < Max(0, (s / 2.0).Floor) =>
      (L as real) * ((j + 1) as real) / (seasonLength * s));
    forall j | 0 <= j < |v|
      ensures (seasonLength * s) * v[j] == (L as real) * ((j + 1) as real)
    {
      MulDivCancel(seasonLength * s, (L as real) * ((j + 1) as real));
    }
    v
  }

  /** The first index of the long term cycle,
      `max(1, floor(L/(cycle_length[1]*s) + 1)) - 1`. */
  function CycleStart(L: int, s: real, longest: real): int
    requires longest * s != 0.0
  {
    Max(1, ((L as real) / (longest * s) + 1.0).Floor) - 1
  }

  /** One past its last index, `min(F-1, floor(L/(cycle_length[0]*s) + 1))`. */
  function CycleEnd(L: int, F: int, s: real, shortest: real): int
    requires shortest * s != 0.0
  {
    Min(F - 1, ((L as real) / (shortest * s) + 1.0).Floor)
  }

  /** The groups of cadence mode, keys in the code's insertion order.
      A zero period is a ZeroDivisionError (Python float division); an empty
      cycle makes `kg['long term cycle'][0]` an IndexError; a zero season
      makes the seasonal frequencies infinite (numpy division), and the first
      `int()` applied to them, in the noise loop or in the output step, is an
      OverflowError. */
  function CadenceGroups(L: nat, F: int, s: real, seasonLength: real, shortest: real, longest: real,
                         includeNoise: bool): (r: Result<Groups>)
  {
    if longest * s == 0.0 || shortest * s == 0.0 then Err(ZeroDivisionError)
    else
      var lo, hi := CycleStart(L, s, longest), CycleEnd(L, F, s, shortest);
      if hi <= lo then Err(IndexError)
      else if seasonLength * s == 0.0 then
        if (s / 2.0).Floor >= 1 then Err(if L == 0 then ValueError else OverflowError)
        else Ok(CadenceNamed([], Range(lo, hi), Range(0, lo), L, includeNoise))
      else Ok(CadenceNamed(Seasonality(L, s, seasonLength), Range(lo, hi), Range(0, lo), L, includeNoise))
  }

  /** The keyed groups of cadence mode, noise last. */
  function CadenceNamed(seasonality: seq<real>, cycle: seq<int>, trend: seq<int>, L: nat, includeNoise: bool): (kg: Groups)
    ensures |kg| == if includeNoise then 4 else 3
    ensures kg[0] == (Name("seasonality"), seasonality)
    ensures kg[1] == (Name("long term cycle"), Reals(cycle))
    ensures kg[2] == (Name("trend"), Reals(trend))
    ensures includeNoise ==> kg[3] == (Name("noise"), Reals(Missing(L / 2, Flatten(kg[..3]))))
  {
    var kg := [(Name("seasonality"), seasonality), (Name("long term cycle"), Reals(cycle)),
               (Name("trend"), Reals(trend))];
    if includeNoise then
      assert (kg + [(Name("noise"), Reals(Missing(L / 2, Flatten(kg))))])[..3] == kg;
      kg + [(Name("noise"), Reals(Missing(L / 2, Flatten(kg))))]
    else kg
  }

  /** `pcum[i] < 100*I` with `pcum = 100*cumsum/S` in floating point: a zero
      denominator turns positive sums into inf, negative ones into -inf and
      zero into nan, which compares false. */
  predicate BelowShare(c: real, p: real, S: real)
  {
    if S > 0.0 then c < p * S
    else if S < 0.0 then c > p * S
    else c < 0.0
  }

  /** Running totals, `np.cumsum`. */
  function CumSum(v: seq<real>): (c: seq<real>)
    ensures |c| == |v| && forall i :: 0 <= i < |v| ==> c[i] == Sum(v[..i + 1])
  {
    seq(|v|, i requires 0 <= i < |v| => Sum(v[..i + 1]))
  }

  /** How many of the first n running totals are below the share. */
  function CountBelow(c: seq<real>, n: nat, p: real, S: real): (k: nat)
    requires n <= |c|
    ensures k <= n
  {
    if n == 0 then 0
    else CountBelow(c, n - 1, p, S) + (if BelowShare(c[n - 1], p, S) then 1 else 0)
  }

  /** Cumulative-share mode: the positions of pzz from the largest value
      down, through the first one whose running total reaches the share
      (`ks[np.arange(0, len(ks[pcum < 100*I]) + 1)]`). S is `sum(psd)`. */
  function ShareGroup(pzz: seq<real>, p: real, S: real): Result<seq<real>>
  {
    var ks := ArgSortDescending(pzz);
    var c := CountBelow(CumSum(Gather(pzz, ks)), |pzz|, p, S);
    if c + 1 > |ks| then Err(IndexError) else Ok(Reals(ks[..c + 1]))
  }

  /** The positions below n whose value exceeds the threshold, in order. */
  function Above(pzz: seq<real>, n: nat, threshold: real): (r: seq<int>)
    requires n <= |pzz|
    ensures forall k :: k in r <==> 0 <= k < n && pzz[k] > threshold
    ensures forall i :: 0 <= i < |r| ==> 0 <= r[i] < n
    ensures forall i, j :: 0 <= i < j < |r| ==> r[i] < r[j]
  {
    if n == 0 then []
    else Above(pzz, n - 1, threshold) + (if pzz[n - 1] > threshold then [n - 1] else [])
  }

  /** Percentile mode: `np.arange(0, F)[pzz > percentile]`. The mask must
      have F entries, else numpy raises IndexError. */
  function PercentileGroup(pzz: seq<real>, F: int, threshold: real): (r: Result<seq<real>>)
    ensures r.Err? <==> |pzz| != F
    ensures r.Ok? ==> forall k: int :: (k as real) in r.value <==> 0 <= k < F && pzz[k] > threshold
  {
    if |pzz| != F then Err(IndexError)
    else
      var g := Above(pzz, |pzz|, threshold);
      assert forall k: int :: (k as real) in Reals(g) <==> k in g by {
        forall k: int
          ensures (k as real) in Reals(g) <==> k in g
        {
          if (k as real) in Reals(g) {
            var i :| 0 <= i < |g| && Reals(g)[i] == k as real;
          }
          if k in g {
            var i :| 0 <= i < |g| && g[i] == k;
            assert Reals(g)[i] == k as real;
          }
        }
      }
      Ok(Reals(g))
  }

  /** The groups of a validated mode. S is `sum(psd)`, percentile the oracle
      for `np.percentile`. */
  function GroupsOf(mode: Mode, L: nat, F: int, pzz: seq<real>, S: real, seasonLength: real,
                    shortest: real, longest: real, includeNoise: bool,
                    percentile: (seq<real>, real) -> real): Result<Groups>
  {
    match mode
    case Cadence(s) => CadenceGroups(L, F, s, seasonLength, shortest, longest, includeNoise)
    case Explicit(groups) => Ok(groups)
    case CumulativeShare(p) =>
      (match ShareGroup(pzz, p, S)
       case Err(e) => Err(e)
       case Ok(g) => Ok([(Number(1), g)]))
    case Percentile(p) =>
      (match PercentileGroup(pzz, F, percentile(pzz, -100.0 * p))
       case Err(e) => Err(e)
       case Ok(g) => Ok([(Number(1), g)]))
  }

  // ---------------------------------------------------------------------
  // Section 4: the outputs rc and sh
  // ---------------------------------------------------------------------

  /** The positions that Python indices select in a sequence of length n, or
      None when one is out of range (numpy raises IndexError). */
  function Resolve(n: int, idx: seq<int>): (r: Option<seq<int>>)
    ensures r.Some? <==> forall i :: 0 <= i < |idx| ==> -n <= idx[i] < n
    ensures r.Some? ==> (|r.value| == |idx| && Positions(r.value, n) &&
      forall i :: 0 <= i < |idx| ==> PyIndex(n, idx[i]) == Some(r.value[i]))
  {
    if forall i :: 0 <= i < |idx| ==> -n <= idx[i] < n then
      Some(seq(|idx|, i requires 0 <= i < |idx| => if idx[i] < 0 then idx[i] + n else idx[i]))
    else None
  }

  /** `np.sum(Z[:, cols], axis=1)`: for every time t, the sum of the selected
      frequency components. Z is stored as its columns. */
  function GroupComponent(Z: seq<seq<real>>, T: nat, cols: seq<int>): (rc: seq<real>)
    requires Shape(Z, |Z|, T) && Positions(cols, |Z|)
    ensures |rc| == T
  {
    seq(T, t requires 0 <= t < T => Sum(Gather(RowOf(Z, t), cols)))
  }

  /** `100*np.sum(pzz[pos])/np.sum(pzz)`. */
  function GroupShare(pzz: seq<real>, pos: seq<int>): Ratio
    requires Positions(pos, |pzz|)
  {
    Divide(100.0 * Sum(Gather(pzz, pos)), Sum(pzz))
  }

  /** Every index of the group, truncated by `int()`, is a valid Python
      index into a sequence of length n. */
  predicate ValidFor(n: int, vals: seq<real>)
  {
    forall i :: 0 <= i < |vals| ==> -n <= Trunc(vals[i]) < n
  }

  /** The output step over kg, group by group. */
  function OutputsOf(Z: seq<seq<real>>, T: nat, pzz: seq<real>, kg: Groups):
    (r: Result<(seq<(Key, seq<real>)>, seq<(Key, Ratio)>)>)
    requires Shape(Z, |Z|, T)
    ensures r.Err? ==> r.error == IndexError
  {
    if |kg| == 0 then Ok(([], []))
    else
      match OutputsOf(Z, T, pzz, kg[..|kg| - 1])
      case Err(e) => Err(e)
      case Ok(out) => OutputStep(Z, T, pzz, out, kg[|kg| - 1])
  }

  /** One pass of the output loop: add the group's rc column and share. */
  function OutputStep(Z: seq<seq<real>>, T: nat, pzz: seq<real>,
                      out: (seq<(Key, seq<real>)>, seq<(Key, Ratio)>), entry: (Key, seq<real>)):
    (r: Result<(seq<(Key, seq<real>)>, seq<(Key, Ratio)>)>)
    requires Shape(Z, |Z|, T)
    ensures r.Err? ==> r.error == IndexError
  {
    var idx := Truncs(entry.1);
    match (Resolve(|Z|, idx), Resolve(|pzz|, idx))
    case (Some(cols), Some(pos)) =>
      Ok((out.0 + [(entry.0, GroupComponent(Z, T, cols))], out.1 + [(entry.0, GroupShare(pzz, pos))]))
    case _ => Err(IndexError)
  }

  /** The component of one group whose indices are in range. */
  function ComponentOf(Z: seq<seq<real>>, T: nat, vals: seq<real>): seq<real>
    requires Shape(Z, |Z|, T) && ValidFor(|Z|, vals)
  {
    GroupComponent(Z, T, Resolve(|Z|, Truncs(vals)).value)
  }

  /** The share of one group whose indices are in range. */
  function ShareOf(pzz: seq<real>, vals: seq<real>): Ratio
    requires ValidFor(|pzz|, vals)
  {
    GroupShare(pzz, Resolve(|pzz|, Truncs(vals)).value)
  }

  /** A group resolves against a length exactly when it is valid for it. */
  lemma ResolveValid(n: int, vals: seq<real>)
    ensures Resolve(n, Truncs(vals)).Some? <==> ValidFor(n, vals)
  {
  }

  /** One output step succeeds exactly when the group is valid for Z and
      pzz, and then appends the group's column and share. */
  lemma OutputStepMeaning(Z: seq<seq<real>>, T: nat, pzz: seq<real>,
                          out: (seq<(Key, seq<real>)>, seq<(Key, Ratio)>), entry: (Key, seq<real>))
    requires Shape(Z, |Z|, T)
    ensures OutputStep(Z, T, pzz, out, entry).Ok? <==> ValidFor(|Z|, entry.1) && ValidFor(|pzz|, entry.1)
    ensures OutputStep(Z, T, pzz, out, entry).Ok? ==>
      OutputStep(Z, T, pzz, out, entry).value ==
        (out.0 + [(entry.0, ComponentOf(Z, T, entry.1))], out.1 + [(entry.0, ShareOf(pzz, entry.1))])
  {
    ResolveValid(|Z|, entry.1);
    ResolveValid(|pzz|, entry.1);
  }

  /** The outputs exist exactly when every index of every group is in range
      for Z and for pzz. */
  lemma {:induction false} OutputsDefined(Z: seq<seq<real>>, T: nat, pzz: seq<real>, kg: Groups)
    requires Shape(Z, |Z|, T)
    ensures OutputsOf(Z, T, pzz, kg).Ok? <==>
      forall g :: 0 <= g < |kg| ==> ValidFor(|Z|, kg[g].1) && ValidFor(|pzz|, kg[g].1)
    decreases |kg|
  {
    if |kg| > 0 {
      var n := |kg| - 1;
      var prefix := kg[..n];
      OutputsDefined(Z, T, pzz, prefix);
      assert forall g :: 0 <= g < n ==> prefix[g] == kg[g];
      var r := OutputsOf(Z, T, pzz, prefix);
      if r.Ok? {
        OutputStepMeaning(Z, T, pzz, r.value, kg[n]);
      }
    }
  }

  /** rc and sh hold one column and one share per group of kg, in the
      order of kg and under the group's key. */
  predicate OutputsMatch(Z: seq<seq<real>>, T: nat, pzz: seq<real>, kg: Groups,
                         rc: seq<(Key, seq<real>)>, sh: seq<(Key, Ratio)>)
    requires Shape(Z, |Z|, T)
  {
    |rc| == |kg| && |sh| == |kg| &&
    forall g :: 0 <= g < |kg| ==>
      ValidFor(|Z|, kg[g].1) && ValidFor(|pzz|, kg[g].1) &&
      rc[g] == (kg[g].0, ComponentOf(Z, T, kg[g].1)) &&
      sh[g] == (kg[g].0, ShareOf(pzz, kg[g].1))
  }

  /** Defined outputs hold one rc column and one share per group, in the
      order of kg and under the group's key. */
  lemma {:induction false} OutputsContents(Z: seq<seq<real>>, T: nat, pzz: seq<real>, kg: Groups)
    requires Shape(Z, |Z|, T) && OutputsOf(Z, T, pzz, kg).Ok?
    ensures OutputsMatch(Z, T, pzz, kg, OutputsOf(Z, T, pzz, kg).value.0, OutputsOf(Z, T, pzz, kg).value.1)
    decreases |kg|
  {
    if |kg| > 0 {
      var n := |kg| - 1;
      var prefix := kg[..n];
      var pre := OutputsOf(Z, T, pzz, prefix).value;
      OutputsContents(Z, T, pzz, prefix);
      OutputStepMeaning(Z, T, pzz, pre, kg[n]);
      ContentsSnoc(Z, T, pzz, kg, pre.0, pre.1);
    }
  }

  /** The last output step keeps the earlier entries and adds the last
      group's. */
  lemma ContentsSnoc(Z: seq<seq<real>>, T: nat, pzz: seq<real>, kg: Groups,
                     rc: seq<(Key, seq<real>)>, sh: seq<(Key, Ratio)>)
    requires Shape(Z, |Z|, T) && |kg| > 0
    requires OutputsMatch(Z, T, pzz, kg[..|kg| - 1], rc, sh)
    requires ValidFor(|Z|, kg[|kg| - 1].1) && ValidFor(|pzz|, kg[|kg| - 1].1)
    ensures var n := |kg| - 1;
      OutputsMatch(Z, T, pzz, kg, rc + [(kg[n].0, ComponentOf(Z, T, kg[n].1))],
                   sh + [(kg[n].0, ShareOf(pzz, kg[n].1))])
  {
    var n := |kg| - 1;
    assert forall g :: 0 <= g < n ==> kg[..n][g] == kg[g];
  }

  /** The output loop (pycissa.py:556-564). */
  method Outputs(Z: seq<seq<real>>, T: nat, pzz: seq<real>, kg: Groups)
    returns (r: Result<(seq<(Key, seq<real>)>, seq<(Key, Ratio)>)>)
    requires Shape(Z, |Z|, T)
    ensures r == OutputsOf(Z, T, pzz, kg)
  {
    var rc: seq<(Key, seq<real>)> := [];
    var sh: seq<(Key, Ratio)> := [];
    for g := 0 to |kg|
      invariant OutputsOf(Z, T, pzz, kg[..g]) == Ok((rc, sh))
    {
      assert kg[..g + 1][..g] == kg[..g];
      var indx := Truncs(kg[g].1);
      var cols := Resolve(|Z|, indx);
      var pos := Resolve(|pzz|, indx);
      if cols.None? || pos.None? {
        OutputStepMeaning(Z, T, pzz, (rc, sh), kg[g]);
        OutputsDefined(Z, T, pzz, kg);
        return Err(IndexError);
      }
      rc := rc + [(kg[g].0, GroupComponent(Z, T, cols.value))];
      sh := sh + [(kg[g].0, GroupShare(pzz, pos.value))];
    }
    assert kg[..|kg|] == kg;
    return Ok((rc, sh));
  }

  // ---------------------------------------------------------------------
  // Section 5: the whole grouping step
  // ---------------------------------------------------------------------

  /** `rc`, `sh` and `kg`, each in the insertion order of kg. */
  datatype Grouping = Grouping(rc: seq<(Key, seq<real>)>, sh: seq<(Key, Ratio)>, kg: Groups)

  /** `group(Z, psd, I, season_length, cycle_length, include_noise)` with
      cycle_length = [shortest, longest]. Z is stored as its |Z| = F columns
      of length T; percentile is the oracle for `np.percentile`. */
  function GroupSpec(Z: seq<seq<real>>, T: nat, psd: NdArray, I: PyArg, seasonLength: real,
                     shortest: real, longest: real, includeNoise: bool,
                     percentile: (seq<real>, real) -> real): Result<Grouping>
    requires Shape(Z, |Z|, T) && psd.WellFormed()
  {
    if psd.cols != 1 then Err(ValueError)
    else match Classify(I)
      case Err(e) => Err(e)
      case Ok(mode) =>
        if !Accepted(mode, psd.rows, |Z|) then Err(ValueError)
        else
          var p := psd.ColumnValues();
          match Pzz(p, |Z|)
          case Err(e) => Err(e)
          case Ok(pzz) =>
            match GroupsOf(mode, psd.rows, |Z|, pzz, Sum(p), seasonLength, shortest, longest,
                           includeNoise, percentile)
            case Err(e) => Err(e)
            case Ok(kg) =>
              match OutputsOf(Z, T, pzz, kg)
              case Err(e) => Err(e)
              case Ok(out) => Ok(Grouping(out.0, out.1, kg))
  }

  /** The checks of step 1 (pycissa.py:446-465) for a classified argument. */
  method Validate(mode: Mode, L: int, F: int) returns (ok: bool)
    requires mode.Cadence? ==> mode.s > 0.0
    ensures ok <==> Accepted(mode, L, F)
  {
    match mode {
      case Cadence(s) =>
        ok := FloatMod(L as real, s) == 0.0;
      case Explicit(groups) =>
        if |groups| > F {
          return false;
        }
        ok := CheckDisjoint(groups);
      case CumulativeShare(_) =>
        ok := true;
      case Percentile(_) =>
        ok := true;
    }
  }

  /** Cadence mode as the code builds kg (pycissa.py:489-513). */
  method BuildCadence(L: nat, F: int, s: real, seasonLength: real, shortest: real, longest: real,
                      includeNoise: bool) returns (r: Result<Groups>)
    ensures r == CadenceGroups(L, F, s, seasonLength, shortest, longest, includeNoise)
  {
    if longest * s == 0.0 || shortest * s == 0.0 {
      return Err(ZeroDivisionError);
    }
    var lo, hi := CycleStart(L, s, longest), CycleEnd(L, F, s, shortest);
    if hi <= lo {
      return Err(IndexError);
    }
    var seasonality: seq<real> := [];
    if seasonLength * s == 0.0 {
      if (s / 2.0).Floor >= 1 {
        // int() of an infinite seasonal frequency
        return Err(if L == 0 then ValueError else OverflowError);
      }
    } else {
      seasonality := Seasonality(L, s, seasonLength);
    }
    var kg := [(Name("seasonality"), seasonality), (Name("long term cycle"), Reals(Range(lo, hi))),
               (Name("trend"), Reals(Range(0, lo)))];
    if includeNoise {
      var current := CollectIndices(kg);
      kg := kg + [(Name("noise"), Reals(Missing(L / 2, current)))];
    }
    assert kg == CadenceNamed(seasonality, Range(lo, hi), Range(0, lo), L, includeNoise);
    return Ok(kg);
  }

  /** Step 3 of the code (pycissa.py:486-546): the groups of each mode. */
  method BuildGroups(mode: Mode, L: nat, F: int, pzz: seq<real>, S: real, seasonLength: real,
                     shortest: real, longest: real, includeNoise: bool,
                     percentile: (seq<real>, real) -> real) returns (kg: Result<Groups>)
    ensures kg == GroupsOf(mode, L, F, pzz, S, seasonLength, shortest, longest, includeNoise, percentile)
  {
    match mode {
      case Cadence(s) =>
        kg := BuildCadence(L, F, s, seasonLength, shortest, longest, includeNoise);
      case Explicit(groups) =>
        kg := Ok(groups);
      case CumulativeShare(p) =>
        var g := ShareGroup(pzz, p, S);
        kg := if g.Err? then Err(g.error) else Ok([(Number(1), g.value)]);
      case Percentile(p) =>
        var g := PercentileGroup(pzz, F, percentile(pzz, -100.0 * p));
        kg := if g.Err? then Err(g.error) else Ok([(Number(1), g.value)]);
    }
  }

  /** The grouping step as the code runs it: checks, pzz, the groups of the
      chosen mode, then the output loop. */
  method Group(Z: seq<seq<real>>, T: nat, psd: NdArray, I: PyArg, seasonLength: real,
               shortest: real, longest: real, includeNoise: bool,
               percentile: (seq<real>, real) -> real) returns (r: Result<Grouping>)
    requires Shape(Z, |Z|, T) && psd.WellFormed()
    requires I.PyDict? ==> UniqueKeys(I.entries)
    ensures r == GroupSpec(Z, T, psd, I, seasonLength, shortest, longest, includeNoise, percentile)
  {
    if psd.cols != 1 {
      return Err(ValueError);
    }
    var F, L := |Z|, psd.rows;
    var opc := Classify(I);
    if opc.Err? {
      return Err(opc.error);
    }
    ClassifyCases(I);
    var ok := Validate(opc.value, L, F);
    if !ok {
      return Err(ValueError);
    }
    var pzz := Pzz(psd.ColumnValues(), F);
    if pzz.Err? {
      return Err(IndexError);
    }
    var kg := BuildGroups(opc.value, L, F, pzz.value, Sum(psd.ColumnValues()), seasonLength,
                          shortest, longest, includeNoise, percentile);
    if kg.Err? {
      return Err(kg.error);
    }
    var out := Outputs(Z, T, pzz.value, kg.value);
    if out.Err? {
      return Err(out.error);
    }
    return Ok(Grouping(out.value.0, out.value.1, kg.value));
  }

  // ---------------------------------------------------------------------
  // Section 6: what the grouping step promises
  // ---------------------------------------------------------------------

  /** group raises ValueError exactly when psd is not a single column, the
      argument selects no mode, or the chosen mode fails its checks; every
      later failure is of another kind. */
  lemma GroupValueErrors(Z: seq<seq<real>>, T: nat, psd: NdArray, I: PyArg, seasonLength: real,
                         shortest: real, longest: real, includeNoise: bool,
                         percentile: (seq<real>, real) -> real)
    requires Shape(Z, |Z|, T) && psd.WellFormed()
    ensures GroupSpec(Z, T, psd, I, seasonLength, shortest, longest, includeNoise, percentile) == Err(ValueError)
      <==> psd.cols != 1 || Classify(I).Err? || !Accepted(Classify(I).value, psd.rows, |Z|)
  {
    ClassifyCases(I);
    if psd.cols == 1 && Classify(I).Ok? && Accepted(Classify(I).value, psd.rows, |Z|) {
      var p := psd.ColumnValues();
      var pzz := Pzz(p, |Z|);
      if pzz.Ok? {
        assert psd.rows >= 1;
        var kg := GroupsOf(Classify(I).value, psd.rows, |Z|, pzz.value, Sum(p), seasonLength, shortest,
                           longest, includeNoise, percentile);
        assert kg.Err? ==> kg.error != ValueError;
      }
    }
  }

  /** When the step succeeds, rc and sh hold one entry per group of kg, in
      kg's order and under its keys: the group's columns of Z summed at every
      time, and its percentage of the folded psd. */
  lemma GroupOutputs(Z: seq<seq<real>>, T: nat, psd: NdArray, I: PyArg, seasonLength: real,
                     shortest: real, longest: real, includeNoise: bool,
                     percentile: (seq<real>, real) -> real)
    requires Shape(Z, |Z|, T) && psd.WellFormed()
    requires GroupSpec(Z, T, psd, I, seasonLength, shortest, longest, includeNoise, percentile).Ok?
    ensures psd.cols == 1 && Pzz(psd.ColumnValues(), |Z|).Ok?
    ensures var r := GroupSpec(Z, T, psd, I, seasonLength, shortest, longest, includeNoise, percentile).value;
      var pzz := Pzz(psd.ColumnValues(), |Z|).value;
      |r.rc| == |r.kg| && |r.sh| == |r.kg| &&
      forall g :: 0 <= g < |r.kg| ==>
        ValidFor(|Z|, r.kg[g].1) && ValidFor(|pzz|, r.kg[g].1) &&
        r.rc[g] == (r.kg[g].0, ComponentOf(Z, T, r.kg[g].1)) &&
        r.sh[g] == (r.kg[g].0, ShareOf(pzz, r.kg[g].1))
  {
    var r := GroupSpec(Z, T, psd, I, seasonLength, shortest, longest, includeNoise, percentile).value;
    var pzz := Pzz(psd.ColumnValues(), |Z|).value;
    OutputsContents(Z, T, pzz, r.kg);
    assert OutputsMatch(Z, T, pzz, r.kg, r.rc, r.sh);
  }

  /** Whole non-negative numbers survive the float round trip of the code. */
  lemma TruncsOfReals(s: seq<int>)
    requires forall i :: 0 <= i < |s| ==> s[i] >= 0
    ensures Truncs(Reals(s)) == s
  {
  }

  /** An index is collected into `current_k` exactly when some group holds
      it. */
  lemma {:induction false} FlattenMembers(kg: Groups, k: int)
    ensures k in Flatten(kg) <==> exists g :: 0 <= g < |kg| && k in Truncs(kg[g].1)
    decreases |kg|
  {
    if |kg| > 0 {
      var n := |kg| - 1;
      FlattenMembers(kg[..n], k);
      assert forall g :: 0 <= g < n ==> kg[..n][g] == kg[g];
      if k in Truncs(kg[n].1) {
        assert k in Flatten(kg);
      }
    }
  }

  /** Cadence mode: the keys come in the code's order, and the seasonal
      entries are the harmonics L(j+1)/(season_length s), j = 0 ..
      floor(s/2) - 1. */
  lemma CadenceSeasonality(L: nat, F: int, s: real, seasonLength: real, shortest: real, longest: real,
                           includeNoise: bool)
    requires CadenceGroups(L, F, s, seasonLength, shortest, longest, includeNoise).Ok?
    ensures var kg := CadenceGroups(L, F, s, seasonLength, shortest, longest, includeNoise).value;
      |kg| == (if includeNoise then 4 else 3) &&
      kg[0].0 == Name("seasonality") && kg[1].0 == Name("long term cycle") && kg[2].0 == Name("trend") &&
      (includeNoise ==> kg[3].0 == Name("noise")) &&
      |kg[0].1| == Max(0, (s / 2.0).Floor) &&
      forall j :: 0 <= j < |kg[0].1| ==> (seasonLength * s) * kg[0].1[j] == (L as real) * ((j + 1) as real)
  {
    var kg := CadenceGroups(L, F, s, seasonLength, shortest, longest, includeNoise).value;
    if seasonLength * s == 0.0 {
      assert kg[0].1 == [];
    } else {
      assert kg[0].1 == Seasonality(L, s, seasonLength);
    }
  }

  /** Cadence mode: the long term cycle is a nonempty run of consecutive
      frequencies inside [0, F-1), and the trend is every frequency below it,
      so the two are disjoint and adjacent. */
  lemma CadenceCycleTrend(L: nat, F: int, s: real, seasonLength: real, shortest: real, longest: real,
                          includeNoise: bool)
    requires CadenceGroups(L, F, s, seasonLength, shortest, longest, includeNoise).Ok?
    ensures var kg := CadenceGroups(L, F, s, seasonLength, shortest, longest, includeNoise).value;
      |kg[1].1| > 0 && 0 <= Trunc(kg[1].1[0]) && Trunc(kg[1].1[0]) + |kg[1].1| <= F - 1 &&
      (forall k :: k in Truncs(kg[1].1) <==> Trunc(kg[1].1[0]) <= k < Trunc(kg[1].1[0]) + |kg[1].1|) &&
      (forall k :: k in Truncs(kg[2].1) <==> 0 <= k < Trunc(kg[1].1[0]))
  {
    var kg := CadenceGroups(L, F, s, seasonLength, shortest, longest, includeNoise).value;
    var lo, hi := CycleStart(L, s, longest), CycleEnd(L, F, s, shortest);
    TruncsOfReals(Range(lo, hi));
    TruncsOfReals(Range(0, lo));
    assert Truncs(kg[1].1) == Range(lo, hi);
    assert Truncs(kg[2].1) == Range(0, lo);
    assert Trunc(kg[1].1[0]) == lo;
  }

  /** Cadence mode: the noise is exactly the frequencies below floor(L/2)
      that no other group holds. */
  lemma CadenceNoise(L: nat, F: int, s: real, seasonLength: real, shortest: real, longest: real)
    requires CadenceGroups(L, F, s, seasonLength, shortest, longest, true).Ok?
    ensures var kg := CadenceGroups(L, F, s, seasonLength, shortest, longest, true).value;
      |kg| == 4 &&
      forall k :: k in Truncs(kg[3].1) <==>
        0 <= k < L / 2 && k !in Truncs(kg[0].1) && k !in Truncs(kg[1].1) && k !in Truncs(kg[2].1)
  {
    var kg := CadenceGroups(L, F, s, seasonLength, shortest, longest, true).value;
    var noise := Missing(L / 2, Flatten(kg[..3]));
    assert kg[3].1 == Reals(noise);
    TruncsOfReals(noise);
    forall k
      ensures k in Truncs(kg[3].1) <==>
        0 <= k < L / 2 && k !in Truncs(kg[0].1) && k !in Truncs(kg[1].1) && k !in Truncs(kg[2].1)
    {
      FlattenMembers(kg[..3], k);
      assert forall g :: 0 <= g < 3 ==> kg[..3][g] == kg[g];
    }
  }

  /** Running totals of non-negative values never go down. */
  lemma CumSumMonotone(v: seq<real>, i: int, j: int)
    requires forall k :: 0 <= k < |v| ==> v[k] >= 0.0
    requires 0 <= i < j < |v|
    ensures CumSum(v)[i] <= CumSum(v)[j]
  {
    assert v[..j + 1] == v[..i + 1] + v[i + 1..j + 1];
    SumAppend(v[..i + 1], v[i + 1..j + 1]);
    SumNonNegative(v[i + 1..j + 1]);
  }

  /** When the entries below the share form a prefix, the count is its
      length. */
  lemma {:induction false} CountBelowPrefix(c: seq<real>, n: nat, p: real, S: real)
    requires n <= |c|
    requires forall i, j :: 0 <= i < j < n && BelowShare(c[j], p, S) ==> BelowShare(c[i], p, S)
    ensures forall i :: 0 <= i < n ==> (BelowShare(c[i], p, S) <==> i < CountBelow(c, n, p, S))
    decreases n
  {
    if n > 0 {
      CountBelowPrefix(c, n - 1, p, S);
    }
  }

  /** Cumulative-share mode with a non-negative pzz and a positive total:
      the group is the positions from the largest pzz down, through the
      first whose running total reaches the share, and no further; it exists
      exactly when some running total reaches the share. */
  lemma ShareGroupPrefix(pzz: seq<real>, p: real, S: real)
    requires forall k :: 0 <= k < |pzz| ==> pzz[k] >= 0.0
    requires S > 0.0
    ensures var ks := ArgSortDescending(pzz); var cum := CumSum(Gather(pzz, ks));
      (ShareGroup(pzz, p, S).Ok? <==> exists i :: 0 <= i < |pzz| && cum[i] >= p * S) &&
      (ShareGroup(pzz, p, S).Ok? ==>
        var g := ShareGroup(pzz, p, S).value;
        1 <= |g| <= |pzz| && g == Reals(ks[..|g|]) &&
        cum[|g| - 1] >= p * S && forall i :: 0 <= i < |g| - 1 ==> cum[i] < p * S)
  {
    var ks := ArgSortDescending(pzz);
    var v := Gather(pzz, ks);
    var cum := CumSum(v);
    forall i, j | 0 <= i < j < |pzz| && BelowShare(cum[j], p, S)
      ensures BelowShare(cum[i], p, S)
    {
      CumSumMonotone(v, i, j);
    }
    CountBelowPrefix(cum, |pzz|, p, S);
    var c := CountBelow(cum, |pzz|, p, S);
    if c < |pzz| {
      assert cum[c] >= p * S;
    } else {
      assert forall i :: 0 <= i < |pzz| ==> cum[i] < p * S;
    }
  }

  /** The last running total of the sorted values is Σ pzz. */
  lemma LastRunningTotal(pzz: seq<real>)
    requires |pzz| > 0
    ensures CumSum(Gather(pzz, ArgSortDescending(pzz)))[|pzz| - 1] == Sum(pzz)
  {
    var v := Gather(pzz, ArgSortDescending(pzz));
    assert Sum(v) == Sum(pzz) by {
      SortedValues(pzz);
      SumPermutation(v, pzz);
    }
    assert v[..|v|] == v;
  }

  lemma ReachesShare(c: real, p: real, S: real)
    requires 0.0 < S <= c && p < 1.0
    ensures c >= p * S
  {
  }

  /** The share group always exists when the denominator does not exceed
      the total of pzz and the share is below 1: the last running total is
      Σ pzz, which reaches it. */
  lemma ShareGroupExists(pzz: seq<real>, p: real, S: real)
    requires forall k :: 0 <= k < |pzz| ==> pzz[k] >= 0.0
    requires 0.0 < S <= Sum(pzz) && p < 1.0
    ensures ShareGroup(pzz, p, S).Ok?
  {
    assert |pzz| != 0;
    LastRunningTotal(pzz);
    var cum := CumSum(Gather(pzz, ArgSortDescending(pzz)));
    ReachesShare(cum[|pzz| - 1], p, S);
    ShareGroupPrefix(pzz, p, S);
  }

  /** So for the psd of a real series (non-negative, symmetric, positive
      total) cumulative-share mode never fails: its denominator `sum(psd)`
      equals Σ pzz. */
  lemma ShareModeNeverFails(psd: seq<real>, p: real)
    requires |psd| >= 1 && forall k :: 0 <= k < |psd| ==> psd[k] >= 0.0
    requires forall k :: 0 < k < |psd| ==> psd[k] == psd[|psd| - k]
    requires Sum(psd) > 0.0 && p < 1.0
    ensures Pzz(psd, |psd| / 2 + 1).Ok? && ShareGroup(Pzz(psd, |psd| / 2 + 1).value, p, Sum(psd)).Ok?
  {
    PzzTotal(psd);
    PzzOfSpectrum(psd);
    var pzz := Pzz(psd, |psd| / 2 + 1).value;
    ShareGroupExists(pzz, p, Sum(psd));
  }

  /** The positions of all groups, in order. */
  function AllPositions(n: int, kg: Groups): seq<int>
    requires forall g :: 0 <= g < |kg| ==> ValidFor(n, kg[g].1)
  {
    if |kg| == 0 then []
    else
      ResolveValid(n, kg[|kg| - 1].1);
      AllPositions(n, kg[..|kg| - 1]) + Resolve(n, Truncs(kg[|kg| - 1].1)).value
  }

  /** The sum of v over each group. */
  function GroupTotals(v: seq<real>, kg: Groups): (t: seq<real>)
    requires forall g :: 0 <= g < |kg| ==> ValidFor(|v|, kg[g].1)
    ensures |t| == |kg| && forall g :: 0 <= g < |kg| ==> t[g] == GroupTotal(v, kg[g].1)
  {
    seq(|kg|, g requires 0 <= g < |kg| => GroupTotal(v, kg[g].1))
  }

  function GroupTotal(v: seq<real>, vals: seq<real>): real
    requires ValidFor(|v|, vals)
  {
    ResolveValid(|v|, vals);
    Sum(Gather(v, Resolve(|v|, Truncs(vals)).value))
  }

  lemma GatherAppend(v: seq<real>, a: seq<int>, b: seq<int>)
    requires Positions(a, |v|) && Positions(b, |v|)
    ensures Positions(a + b, |v|) && Gather(v, a + b) == Gather(v, a) + Gather(v, b)
  {
  }

  lemma GroupTotalsPrefix(v: seq<real>, kg: Groups, n: int)
    requires forall g :: 0 <= g < |kg| ==> ValidFor(|v|, kg[g].1)
    requires 0 <= n <= |kg|
    ensures forall g :: 0 <= g < n ==> ValidFor(|v|, kg[..n][g].1)
    ensures GroupTotals(v, kg)[..n] == GroupTotals(v, kg[..n])
  {
    assert forall g :: 0 <= g < n ==> kg[..n][g] == kg[g];
  }

  lemma AllPositionsLast(n: int, kg: Groups)
    requires forall g :: 0 <= g < |kg| ==> ValidFor(n, kg[g].1)
    requires |kg| > 0
    ensures forall g :: 0 <= g < |kg| - 1 ==> ValidFor(n, kg[g].1)
    ensures Resolve(n, Truncs(kg[|kg| - 1].1)).Some?
    ensures AllPositions(n, kg) ==
      AllPositions(n, kg[..|kg| - 1]) + Resolve(n, Truncs(kg[|kg| - 1].1)).value
  {
    ResolveValid(n, kg[|kg| - 1].1);
  }

  /** Summing group by group is summing over all their positions. */
  lemma {:induction false} GroupTotalsSum(v: seq<real>, kg: Groups)
    requires forall g :: 0 <= g < |kg| ==> ValidFor(|v|, kg[g].1)
    ensures Positions(AllPositions(|v|, kg), |v|)
    ensures Sum(GroupTotals(v, kg)) == Sum(Gather(v, AllPositions(|v|, kg)))
    decreases |kg|
  {
    if |kg| > 0 {
      var n := |kg| - 1;
      var prefix := kg[..n];
      AllPositionsLast(|v|, kg);
      GroupTotalsPrefix(v, kg, n);
      GroupTotalsSum(v, prefix);
      var last := Resolve(|v|, Truncs(kg[n].1)).value;
      var before := AllPositions(|v|, prefix);
      GatherAppend(v, before, last);
      SumAppend(Gather(v, before), Gather(v, last));
      var t := GroupTotals(v, kg);
      assert t[n] == Sum(Gather(v, last));
    }
  }

  /** Groups that use every position of v exactly once add up to Σ v. */
  lemma PartitionTotal(v: seq<real>, kg: Groups)
    requires forall g :: 0 <= g < |kg| ==> ValidFor(|v|, kg[g].1)
    requires multiset(AllPositions(|v|, kg)) == multiset(Range(0, |v|))
    ensures Sum(GroupTotals(v, kg)) == Sum(v)
  {
    GroupTotalsSum(v, kg);
    GatherPermutation(v, AllPositions(|v|, kg), |v|);
    assert v[..|v|] == v;
    SumPermutation(Gather(v, AllPositions(|v|, kg)), v);
  }

  /** When the groups use every frequency column exactly once, the group
      components add up, at every time t, to the sum of all frequency
      components. */
  lemma ComponentsPartition(Z: seq<seq<real>>, T: nat, kg: Groups, t: int)
    requires Shape(Z, |Z|, T) && 0 <= t < T
    requires forall g :: 0 <= g < |kg| ==> ValidFor(|Z|, kg[g].1)
    requires multiset(AllPositions(|Z|, kg)) == multiset(Range(0, |Z|))
    ensures Sum(seq(|kg|, g requires 0 <= g < |kg| => ComponentOf(Z, T, kg[g].1)[t])) == Sum(RowOf(Z, t))
  {
    PartitionTotal(RowOf(Z, t), kg);
    ComponentsAtTime(Z, T, kg, t);
  }

  /** At time t the group components are the group totals over row t. */
  lemma ComponentsAtTime(Z: seq<seq<real>>, T: nat, kg: Groups, t: int)
    requires Shape(Z, |Z|, T) && 0 <= t < T
    requires forall g :: 0 <= g < |kg| ==> ValidFor(|Z|, kg[g].1)
    ensures seq(|kg|, g requires 0 <= g < |kg| => ComponentOf(Z, T, kg[g].1)[t]) == GroupTotals(RowOf(Z, t), kg)
  {
    var totals := GroupTotals(RowOf(Z, t), kg);
    forall g | 0 <= g < |kg|
      ensures ComponentOf(Z, T, kg[g].1)[t] == totals[g]
    {
      ComponentAtTime(Z, T, kg[g].1, t);
    }
  }

  /** At time t a group's component is the group's total over row t. */
  lemma ComponentAtTime(Z: seq<seq<real>>, T: nat, vals: seq<real>, t: int)
    requires Shape(Z, |Z|, T) && 0 <= t < T && ValidFor(|Z|, vals)
    ensures ComponentOf(Z, T, vals)[t] == GroupTotal(RowOf(Z, t), vals)
  {
    ResolveValid(|Z|, vals);
  }

  /** A group's share is 100 times its total over Σpzz. */
  lemma ShareValue(pzz: seq<real>, vals: seq<real>, S: real)
    requires ValidFor(|pzz|, vals) && S == Sum(pzz)
    ensures ShareOf(pzz, vals) == Divide(100.0 * GroupTotal(pzz, vals), S)
  {
    ResolveValid(|pzz|, vals);
  }

  /** The shares of the groups over a nonzero total S (the code's S is
      Σpzz): each group's total over S, in percent. */
  function Shares(pzz: seq<real>, kg: Groups, S: real): (r: seq<real>)
    requires forall g :: 0 <= g < |kg| ==> ValidFor(|pzz|, kg[g].1)
    requires S != 0.0
    ensures |r| == |kg|
  {
    Percentages(GroupTotals(pzz, kg), S)
  }

  /** Every part over the whole, in percent. */
  function Percentages(t: seq<real>, S: real): (r: seq<real>)
    requires S != 0.0
    ensures |r| == |t|
  {
    seq(|t|, g requires 0 <= g < |t| => 100.0 * t[g] / S)
  }

  /** Entry g of the shares is the share the output step records for group g. */
  lemma SharesAt(pzz: seq<real>, kg: Groups, S: real, g: int)
    requires forall g :: 0 <= g < |kg| ==> ValidFor(|pzz|, kg[g].1)
    requires S == Sum(pzz) && S != 0.0 && 0 <= g < |kg|
    ensures ShareOf(pzz, kg[g].1) == Finite(Shares(pzz, kg, S)[g])
  {
    ShareValue(pzz, kg[g].1, S);
    SharesEntry(pzz, kg, S, g);
  }

  lemma SharesEntry(pzz: seq<real>, kg: Groups, S: real, g: int)
    requires forall g :: 0 <= g < |kg| ==> ValidFor(|pzz|, kg[g].1)
    requires S != 0.0 && 0 <= g < |kg|
    ensures Shares(pzz, kg, S)[g] == 100.0 * GroupTotal(pzz, kg[g].1) / S
  {
  }

  lemma DivideOut(a: real, t: real, S: real)
    requires S != 0.0 && Divide(100.0 * t, S) == Finite(a)
    ensures a == (100.0 / S) * t
  {
  }

  /** Percentages are the parts scaled by 100 over the whole. */
  lemma PercentagesScaled(t: seq<real>, S: real)
    requires S != 0.0
    ensures Percentages(t, S) == Scaled(t, 100.0 / S)
  {
    var a := Percentages(t, S);
    forall g | 0 <= g < |t|
      ensures a[g] == Scaled(t, 100.0 / S)[g]
    {
      DivideOut(a[g], t[g], S);
    }
  }

  /** Percentages of parts that add up to the whole add up to 100. */
  lemma PercentagesAddUp(t: seq<real>, S: real)
    requires S != 0.0 && Sum(t) == S
    ensures Sum(Percentages(t, S)) == 100.0
  {
    PercentagesScaled(t, S);
    SumScale(t, Scaled(t, 100.0 / S), 100.0 / S);
    MulDivCancel(S, 100.0);
  }

  /** Every entry multiplied by k. */
  function Scaled(v: seq<real>, k: real): (w: seq<real>)
    ensures |w| == |v| && forall i :: 0 <= i < |v| ==> w[i] == k * v[i]
  {
    seq(|v|, i requires 0 <= i < |v| => k * v[i])
  }

  /** When the groups use every entry of pzz exactly once and Σ pzz is not
      zero, the shares add up to 100. */
  lemma SharesPartition(pzz: seq<real>, kg: Groups)
    requires forall g :: 0 <= g < |kg| ==> ValidFor(|pzz|, kg[g].1)
    requires multiset(AllPositions(|pzz|, kg)) == multiset(Range(0, |pzz|))
    requires Sum(pzz) != 0.0
    ensures Sum(Shares(pzz, kg, Sum(pzz))) == 100.0
  {
    PartitionTotal(pzz, kg);
    PercentagesAddUp(GroupTotals(pzz, kg), Sum(pzz));
  }
}
