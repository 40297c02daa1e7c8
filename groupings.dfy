/** `build_groupings(period_ranges, data_per_unit_period, psd, z,
    include_noise)` in CiSSA/pycissa.py: the grouping dictionary for named
    period ranges. A range whose two bounds are equal is a seasonal period
    and yields its harmonics; any other range yields the integer frequencies
    of the periods between its bounds. Then comes the trend, every frequency
    below the lowest one used, and optionally the noise, every frequency
    below L/2 that no group holds. */
module Groupings {
  import opened Common
  import opened Grouper

  /** `period_ranges` in insertion order: each key with its two bounds
      `(value_p[0], value_p[1])`. */
  type PeriodRanges = seq<(Key, (real, real))>

  /** What a Python dict guarantees of its keys. */
  predicate DistinctKeys<V>(d: seq<(Key, V)>)
  {
    forall i, j :: 0 <= i < j < |d| ==> d[i].0 != d[j].0
  }

  predicate HasKey<V>(d: seq<(Key, V)>, k: Key)
  {
    exists i :: 0 <= i < |d| && d[i].0 == k
  }

  /** `d.update({k: v})`: an existing key keeps its place and takes the new
      value; a new key goes last. */
  function Update<V>(d: seq<(Key, V)>, k: Key, v: V): (r: seq<(Key, V)>)
    ensures !HasKey(d, k) ==> r == d + [(k, v)]
    ensures HasKey(d, k) ==> |r| == |d|
    ensures forall i :: 0 <= i < |d| && d[i].0 == k && (forall j :: 0 <= j < i ==> d[j].0 != k) ==>
      r == d[i := (k, v)]
    decreases |d|
  {
    if |d| == 0 then [(k, v)]
    else if d[0].0 == k then [(k, v)] + d[1..]
    else
      var rest := Update(d[1..], k, v);
      assert HasKey(d, k) ==> HasKey(d[1..], k) by {
        if HasKey(d, k) {
          var i :| 0 <= i < |d| && d[i].0 == k;
          assert d[1..][i - 1].0 == k;
        }
      }
      assert forall i :: 1 <= i < |d| ==> d[1..][i - 1] == d[i];
      [d[0]] + rest
  }

  // ---------------------------------------------------------------------
  // One period range
  // ---------------------------------------------------------------------

  /** The array one period range yields (`myarray`). */
  datatype Band =
    | Harmonics(freqs: seq<real>)  // equal bounds: the seasonal harmonics
    | Cycle(lo: int, hi: int)      // distinct bounds: the integers in [lo, hi)
    | Unbounded(count: nat)        // equal bounds whose product with s is 0:
                                   // numpy fills the array with inf (nan when L is 0)

  /** `myarray` for one range. An empty array makes `min(myarray)` a
      ValueError; a zero product `value_p[i]*s` under the Python division
      `L/(...)` is a ZeroDivisionError. */
  function BandOf(L: nat, F: int, s: int, bounds: (real, real)): (r: Result<Band>)
    ensures r.Err? ==> r.error == ValueError || r.error == ZeroDivisionError
    ensures r.Ok? && r.value.Harmonics? ==> |r.value.freqs| > 0
    ensures r.Ok? && r.value.Cycle? ==> r.value.lo < r.value.hi
  {
    var sr := s as real;
    var (shortest, longest) := bounds;
    if shortest == longest then
      var m := Max(0, (sr / 2.0).Floor);
      if m == 0 then Err(ValueError)
      else if shortest * sr == 0.0 then Ok(Unbounded(m))
      else Ok(Harmonics(Seasonality(L, sr, shortest)))
    else if longest * sr == 0.0 || shortest * sr == 0.0 then Err(ZeroDivisionError)
    else
      var lo, hi := CycleStart(L, sr, longest), CycleEnd(L, F, sr, shortest);
      if hi <= lo then Err(ValueError) else Ok(Cycle(lo, hi))
  }

  /** The values kg holds for a finite band. */
  function BandValues(b: Band): seq<real>
  {
    match b
    case Harmonics(v) => v
    case Cycle(lo, hi) => Reals(Range(lo, hi))
    case Unbounded(_) => []
  }

  /** Python's `min(a, b)`: b only when it is strictly smaller. */
  function MinReal(a: real, b: real): real
  {
    if b < a then b else a
  }

  /** Python's `min` over a non-empty array. */
  function MinOf(v: seq<real>): (m: real)
    requires |v| > 0
    ensures m in v && forall i :: 0 <= i < |v| ==> m <= v[i]
  {
    if |v| == 1 then v[0] else MinReal(MinOf(v[..|v| - 1]), v[|v| - 1])
  }

  /** `min_k = min(min_k, min(myarray))`. An inf or nan array never
      compares below min_k and leaves it as it is. */
  function LowerMin(minK: real, b: Band): real
  {
    match b
    case Harmonics(v) => if |v| == 0 then minK else MinReal(minK, MinOf(v))
    case Cycle(lo, hi) => if hi <= lo then minK else MinReal(minK, lo as real)
    case Unbounded(_) => minK
  }

  // ---------------------------------------------------------------------
  // The loop over the ranges and the whole function
  // ---------------------------------------------------------------------

  /** The state after the loop over `period_ranges`: the bands by key and
      `min_k`, or the first error. */
  function Scan(L: nat, F: int, s: int, ranges: PeriodRanges, minK0: real):
    (r: Result<(seq<(Key, Band)>, real)>)
  {
    if |ranges| == 0 then Ok(([], minK0))
    else
      match Scan(L, F, s, ranges[..|ranges| - 1], minK0)
      case Err(e) => Err(e)
      case Ok(state) =>
        var (key, bounds) := ranges[|ranges| - 1];
        match BandOf(L, F, s, bounds)
        case Err(e) => Err(e)
        case Ok(b) => Ok((Update(state.0, key, b), LowerMin(state.1, b)))
  }

  predicate HasUnbounded(bands: seq<(Key, Band)>)
  {
    exists i :: 0 <= i < |bands| && bands[i].1.Unbounded?
  }

  function Values(bands: seq<(Key, Band)>): (kg: Groups)
    ensures |kg| == |bands| && forall i :: 0 <= i < |bands| ==> kg[i] == (bands[i].0, BandValues(bands[i].1))
  {
    seq(|bands|, i requires 0 <= i < |bands| => (bands[i].0, BandValues(bands[i].1)))
  }

  /** The value `min_k` starts from (pycissa.py:26). */
  const MinKStart: real := 1000000000.0

  /** `build_groupings` with L = len(psd), F the number of columns of z and
      s = data_per_unit_period. `np.mod(L, s)` of integers is 0 when s is 0,
      so only a nonzero s can fail the proportionality check. An inf or nan
      array fails the first `int()` of the noise loop: nan (L = 0) with a
      ValueError, inf with an OverflowError. */
  function BuildSpec(L: nat, F: int, s: int, ranges: PeriodRanges, includeNoise: bool): Result<Groups>
  {
    if s != 0 && L % s != 0 then Err(ValueError)
    else
      match Scan(L, F, s, ranges, MinKStart)
      case Err(e) => Err(e)
      case Ok(state) =>
        var bands := Update(state.0, Name("trend"), Cycle(0, Trunc(state.1)));
        if HasUnbounded(bands) then Err(if includeNoise && L == 0 then ValueError else OverflowError)
        else
          var kg := Values(bands);
          if includeNoise then Ok(Update(kg, Name("noise"), Reals(Missing(L / 2, Flatten(kg)))))
          else Ok(kg)
  }

  /** An error in the loop stays the result of every longer loop. */
  lemma {:induction false} ScanStops(L: nat, F: int, s: int, ranges: PeriodRanges, minK0: real, n: nat)
    requires n <= |ranges| && Scan(L, F, s, ranges[..n], minK0).Err?
    ensures Scan(L, F, s, ranges, minK0) == Scan(L, F, s, ranges[..n], minK0)
    decreases |ranges|
  {
    if n < |ranges| {
      var m := |ranges| - 1;
      assert ranges[..m][..n] == ranges[..n];
      ScanStops(L, F, s, ranges[..m], minK0, n);
      ScanStopsOnce(L, F, s, ranges, minK0);
    } else {
      assert ranges[..n] == ranges;
    }
  }

  /** An error before the last range is the result of the whole loop. */
  lemma ScanStopsOnce(L: nat, F: int, s: int, ranges: PeriodRanges, minK0: real)
    requires |ranges| > 0 && Scan(L, F, s, ranges[..|ranges| - 1], minK0).Err?
    ensures Scan(L, F, s, ranges, minK0) == Scan(L, F, s, ranges[..|ranges| - 1], minK0)
  {
  }

  /** The loop over the ranges (pycissa.py:27-38), then the trend and the
      noise (pycissa.py:41-48). */
  method BuildGroupings(L: nat, F: int, s: int, ranges: PeriodRanges, includeNoise: bool)
    returns (r: Result<Groups>)
    ensures r == BuildSpec(L, F, s, ranges, includeNoise)
  {
    if s != 0 && L % s != 0 {
      return Err(ValueError);
    }
    var bands: seq<(Key, Band)> := [];
    var minK := MinKStart;
    for i := 0 to |ranges|
      invariant Scan(L, F, s, ranges[..i], MinKStart) == Ok((bands, minK))
    {
      assert ranges[..i + 1][..i] == ranges[..i];
      var b := BandOf(L, F, s, ranges[i].1);
      if b.Err? {
        ScanStops(L, F, s, ranges, MinKStart, i + 1);
        return Err(b.error);
      }
      bands := Update(bands, ranges[i].0, b.value);
      minK := LowerMin(minK, b.value);
    }
    assert ranges[..|ranges|] == ranges;
    bands := Update(bands, Name("trend"), Cycle(0, Trunc(minK)));
    if HasUnbounded(bands) {
      return Err(if includeNoise && L == 0 then ValueError else OverflowError);
    }
    var kg := Values(bands);
    if includeNoise {
      var current := CollectIndices(kg);
      kg := Update(kg, Name("noise"), Reals(Missing(L / 2, current)));
    }
    return Ok(kg);
  }

  // ---------------------------------------------------------------------
  // What the result holds
  // ---------------------------------------------------------------------

  /** The keys a scan has seen, in order, each with the band its bounds
      give. */
  lemma {:induction false} ScanBands(L: nat, F: int, s: int, ranges: PeriodRanges, minK0: real)
    requires DistinctKeys(ranges) && Scan(L, F, s, ranges, minK0).Ok?
    ensures var bands := Scan(L, F, s, ranges, minK0).value.0;
      |bands| == |ranges| &&
      forall i :: 0 <= i < |ranges| ==> bands[i].0 == ranges[i].0 && BandOf(L, F, s, ranges[i].1) == Ok(bands[i].1)
    decreases |ranges|
  {
    if |ranges| > 0 {
      var n := |ranges| - 1;
      var prefix := ranges[..n];
      assert DistinctKeys(prefix);
      ScanBands(L, F, s, prefix, minK0);
      var bands := Scan(L, F, s, prefix, minK0).value.0;
      assert !HasKey(bands, ranges[n].0) by {
        forall i | 0 <= i < |bands|
          ensures bands[i].0 != ranges[n].0
        {
          assert bands[i].0 == ranges[i].0;
        }
      }
    }
  }

  /** `min_k` after the loop: at most its start value and at most every
      value of every group, and equal to the start value or to one of those
      values. */
  predicate Lowest(m: real, m0: real, kg: Groups)
  {
    m <= m0 &&
    (forall i, j :: 0 <= i < |kg| && 0 <= j < |kg[i].1| ==> m <= kg[i].1[j]) &&
    (m == m0 || exists i, j :: 0 <= i < |kg| && 0 <= j < |kg[i].1| && m == kg[i].1[j])
  }

  /** LowerMin keeps Lowest when one band is added at the end. */
  lemma LowestStep(m: real, m0: real, bands: seq<(Key, Band)>, key: Key, b: Band)
    requires Lowest(m, m0, Values(bands))
    requires b.Harmonics? ==> |b.freqs| > 0
    requires b.Cycle? ==> b.lo < b.hi
    ensures Lowest(LowerMin(m, b), m0, Values(bands + [(key, b)]))
  {
    var kg, kg' := Values(bands), Values(bands + [(key, b)]);
    var m' := LowerMin(m, b);
    var n := |bands|;
    var v := BandValues(b);
    assert kg'[n].1 == v;
    assert forall i :: 0 <= i < n ==> kg'[i] == kg[i];
    assert forall j :: 0 <= j < |v| ==> m' <= v[j] by {
      if b.Cycle? {
        assert v[0] == b.lo as real;
      }
    }
    if m' != m {
      if b.Harmonics? {
        var j :| 0 <= j < |b.freqs| && b.freqs[j] == MinOf(b.freqs);
        assert m' == kg'[n].1[j];
      } else {
        assert m' == kg'[n].1[0];
      }
    } else if m != m0 {
      var i, j :| 0 <= i < |kg| && 0 <= j < |kg[i].1| && m == kg[i].1[j];
      assert kg'[i] == kg[i];
    }
  }

  /** The scan's `min_k` is the lowest value of every array, or the start
      value when that is lower. */
  lemma {:induction false} ScanLowest(L: nat, F: int, s: int, ranges: PeriodRanges, minK0: real)
    requires DistinctKeys(ranges) && Scan(L, F, s, ranges, minK0).Ok?
    ensures var state := Scan(L, F, s, ranges, minK0).value;
      Lowest(state.1, minK0, Values(state.0))
    decreases |ranges|
  {
    if |ranges| > 0 {
      var n := |ranges| - 1;
      var prefix := ranges[..n];
      assert DistinctKeys(prefix);
      ScanLowest(L, F, s, prefix, minK0);
      ScanBands(L, F, s, prefix, minK0);
      var state := Scan(L, F, s, prefix, minK0).value;
      var b := BandOf(L, F, s, ranges[n].1).value;
      assert !HasKey(state.0, ranges[n].0) by {
        forall i | 0 <= i < |state.0|
          ensures state.0[i].0 != ranges[n].0
        {
          assert state.0[i].0 == ranges[i].0;
        }
      }
      LowestStep(state.1, minK0, state.0, ranges[n].0, b);
    }
  }

  /** The values a range contributes: the harmonics of an equal-bounds
      range, the integers between the cycle bounds otherwise. */
  function RangeValues(L: nat, F: int, s: int, bounds: (real, real)): seq<real>
    requires BandOf(L, F, s, bounds).Ok?
  {
    BandValues(BandOf(L, F, s, bounds).value)
  }

  /** When every range yields an array, so does the scan. */
  lemma {:induction false} ScanOk(L: nat, F: int, s: int, ranges: PeriodRanges, minK0: real)
    requires forall i :: 0 <= i < |ranges| ==> BandOf(L, F, s, ranges[i].1).Ok?
    ensures Scan(L, F, s, ranges, minK0).Ok?
    decreases |ranges|
  {
    if |ranges| > 0 {
      var n := |ranges| - 1;
      assert forall i :: 0 <= i < n ==> ranges[..n][i] == ranges[i];
      ScanOk(L, F, s, ranges[..n], minK0);
    }
  }

  /** A range that yields no array fails the scan. */
  lemma {:induction false} ScanFails(L: nat, F: int, s: int, ranges: PeriodRanges, minK0: real, k: int)
    requires 0 <= k < |ranges| && BandOf(L, F, s, ranges[k].1).Err?
    ensures Scan(L, F, s, ranges, minK0).Err?
    decreases |ranges|
  {
    var n := |ranges| - 1;
    if k < n {
      assert ranges[..n][k] == ranges[k];
      ScanFails(L, F, s, ranges[..n], minK0, k);
    }
  }

  /** Proportionality: a nonzero s that does not divide L is a ValueError. */
  lemma BuildRejectsDisproportion(L: nat, F: int, s: int, ranges: PeriodRanges, includeNoise: bool)
    requires s != 0 && L % s != 0
    ensures BuildSpec(L, F, s, ranges, includeNoise) == Err(ValueError)
  {
  }

  /** The bands after the trend update, when no range is called trend. */
  lemma TrendBands(L: nat, F: int, s: int, ranges: PeriodRanges, minK0: real)
    requires DistinctKeys(ranges) && !HasKey(ranges, Name("trend"))
    requires Scan(L, F, s, ranges, minK0).Ok?
    ensures var state := Scan(L, F, s, ranges, minK0).value;
      Update(state.0, Name("trend"), Cycle(0, Trunc(state.1))) ==
        state.0 + [(Name("trend"), Cycle(0, Trunc(state.1)))]
    ensures var state := Scan(L, F, s, ranges, minK0).value;
      |state.0| == |ranges| &&
      forall i :: 0 <= i < |ranges| ==> state.0[i].0 == ranges[i].0 && BandOf(L, F, s, ranges[i].1) == Ok(state.0[i].1)
  {
    ScanBands(L, F, s, ranges, minK0);
    var state := Scan(L, F, s, ranges, minK0).value;
    assert !HasKey(state.0, Name("trend")) by {
      forall i | 0 <= i < |state.0|
        ensures state.0[i].0 != Name("trend")
      {
        assert state.0[i].0 == ranges[i].0;
      }
    }
  }

  /** The result is defined exactly when s divides L (or is 0), every range
      yields a non-empty array with no division by zero, and no equal-bounds
      range has a zero product with s. */
  lemma BuildSucceeds(L: nat, F: int, s: int, ranges: PeriodRanges, includeNoise: bool)
    requires DistinctKeys(ranges) && !HasKey(ranges, Name("trend"))
    ensures BuildSpec(L, F, s, ranges, includeNoise).Ok? <==>
      (s == 0 || L % s == 0) &&
      forall i :: 0 <= i < |ranges| ==>
        BandOf(L, F, s, ranges[i].1).Ok? && !BandOf(L, F, s, ranges[i].1).value.Unbounded?
  {
    if s == 0 || L % s == 0 {
      if forall i :: 0 <= i < |ranges| ==> BandOf(L, F, s, ranges[i].1).Ok? {
        ScanOk(L, F, s, ranges, MinKStart);
        TrendBands(L, F, s, ranges, MinKStart);
        var state := Scan(L, F, s, ranges, MinKStart).value;
        var bands := state.0 + [(Name("trend"), Cycle(0, Trunc(state.1)))];
        assert forall i :: 0 <= i < |ranges| ==> bands[i] == state.0[i];
        if HasUnbounded(bands) {
          var i :| 0 <= i < |bands| && bands[i].1.Unbounded?;
          assert i < |ranges|;
        }
      } else {
        var i :| 0 <= i < |ranges| && BandOf(L, F, s, ranges[i].1).Err?;
        ScanFails(L, F, s, ranges, MinKStart, i);
      }
    }
  }

  /** `min_k` when the loop completes. */
  function MinK(L: nat, F: int, s: int, ranges: PeriodRanges): real
    requires Scan(L, F, s, ranges, MinKStart).Ok?
  {
    Scan(L, F, s, ranges, MinKStart).value.1
  }

  /** With no range called trend or noise, a defined result holds the
      ranges, then the trend, then (with include_noise) one more group. */
  lemma BuildPrefix(L: nat, F: int, s: int, ranges: PeriodRanges, includeNoise: bool)
    requires DistinctKeys(ranges) && !HasKey(ranges, Name("trend")) && !HasKey(ranges, Name("noise"))
    requires BuildSpec(L, F, s, ranges, includeNoise).Ok?
    ensures Scan(L, F, s, ranges, MinKStart).Ok?
    ensures var state := Scan(L, F, s, ranges, MinKStart).value;
      var kg0 := Values(state.0 + [(Name("trend"), Cycle(0, Trunc(state.1)))]);
      var kg := BuildSpec(L, F, s, ranges, includeNoise).value;
      |state.0| == |ranges| && |kg0| == |ranges| + 1 && !HasKey(kg0, Name("noise")) &&
      (forall i :: 0 <= i < |ranges| ==> state.0[i].0 == ranges[i].0 && BandOf(L, F, s, ranges[i].1) == Ok(state.0[i].1)) &&
      kg == (if includeNoise then kg0 + [(Name("noise"), Reals(Missing(L / 2, Flatten(kg0))))] else kg0)
  {
    TrendBands(L, F, s, ranges, MinKStart);
    var state := Scan(L, F, s, ranges, MinKStart).value;
    var kg0 := Values(state.0 + [(Name("trend"), Cycle(0, Trunc(state.1)))]);
    assert !HasKey(kg0, Name("noise")) by {
      forall i | 0 <= i < |kg0|
        ensures kg0[i].0 != Name("noise")
      {
        if i < |ranges| {
          assert kg0[i].0 == ranges[i].0;
        }
      }
    }
  }

  /** With no range called trend or noise, a defined result holds every
      range under its own key with its own values, in the order of
      `period_ranges`. */
  lemma BuildRanges(L: nat, F: int, s: int, ranges: PeriodRanges, includeNoise: bool)
    requires DistinctKeys(ranges) && !HasKey(ranges, Name("trend")) && !HasKey(ranges, Name("noise"))
    requires BuildSpec(L, F, s, ranges, includeNoise).Ok?
    ensures var kg := BuildSpec(L, F, s, ranges, includeNoise).value;
      |kg| == |ranges| + (if includeNoise then 2 else 1) &&
      forall i :: 0 <= i < |ranges| ==>
        BandOf(L, F, s, ranges[i].1).Ok? && kg[i] == (ranges[i].0, RangeValues(L, F, s, ranges[i].1))
  {
    BuildPrefix(L, F, s, ranges, includeNoise);
  }

  /** With no range called trend or noise, the trend follows the ranges and
      holds the frequencies from 0 up to `int(min_k)`, where min_k is the
      lowest value of any range's array, or 1e9 when that is lower. */
  lemma BuildTrend(L: nat, F: int, s: int, ranges: PeriodRanges, includeNoise: bool)
    requires DistinctKeys(ranges) && !HasKey(ranges, Name("trend")) && !HasKey(ranges, Name("noise"))
    requires BuildSpec(L, F, s, ranges, includeNoise).Ok?
    ensures Scan(L, F, s, ranges, MinKStart).Ok?
    ensures var kg := BuildSpec(L, F, s, ranges, includeNoise).value;
      |kg| > |ranges| &&
      kg[|ranges|] == (Name("trend"), Reals(Range(0, Trunc(MinK(L, F, s, ranges))))) &&
      Lowest(MinK(L, F, s, ranges), MinKStart, kg[..|ranges|])
  {
    BuildPrefix(L, F, s, ranges, includeNoise);
    ScanLowest(L, F, s, ranges, MinKStart);
    var state := Scan(L, F, s, ranges, MinKStart).value;
    TrendAfterRanges(state.0, state.1, BuildSpec(L, F, s, ranges, includeNoise).value, includeNoise, L);
  }

  /** In the groups built from the scanned bands, the trend comes right after
      them and the bands come first, as they were. */
  lemma TrendAfterRanges(bands: seq<(Key, Band)>, m: real, kg: Groups, includeNoise: bool, L: nat)
    requires var kg0 := Values(bands + [(Name("trend"), Cycle(0, Trunc(m)))]);
      kg == (if includeNoise then kg0 + [(Name("noise"), Reals(Missing(L / 2, Flatten(kg0))))] else kg0)
    ensures |kg| > |bands|
    ensures kg[|bands|] == (Name("trend"), Reals(Range(0, Trunc(m))))
    ensures kg[..|bands|] == Values(bands)
  {
    var kg0 := Values(bands + [(Name("trend"), Cycle(0, Trunc(m)))]);
    assert kg[..|kg0|] == kg0;
  }

  /** k is in no group of kg, once truncated. */
  predicate Unheld(k: int, kg: Groups)
  {
    forall g :: 0 <= g < |kg| ==> k !in Truncs(kg[g].1)
  }

  /** The noise of `others`: every frequency below L/2 that none of them
      holds, and nothing else. */
  ghost predicate IsNoise(noise: seq<real>, others: Groups, L: int)
  {
    forall k :: k in Truncs(noise) <==> 0 <= k < L / 2 && Unheld(k, others)
  }

  /** With include_noise and no range called trend or noise, the noise is
      last and holds every frequency below L/2 that no other group holds
      once truncated by `int()`. */
  lemma BuildNoise(L: nat, F: int, s: int, ranges: PeriodRanges)
    requires DistinctKeys(ranges) && !HasKey(ranges, Name("trend")) && !HasKey(ranges, Name("noise"))
    requires BuildSpec(L, F, s, ranges, true).Ok?
    ensures var kg := BuildSpec(L, F, s, ranges, true).value;
      |kg| == |ranges| + 2 && kg[|ranges| + 1].0 == Name("noise") &&
      IsNoise(kg[|ranges| + 1].1, kg[..|ranges| + 1], L)
  {
    BuildPrefix(L, F, s, ranges, true);
    var state := Scan(L, F, s, ranges, MinKStart).value;
    var kg0 := Values(state.0 + [(Name("trend"), Cycle(0, Trunc(state.1)))]);
    var kg := BuildSpec(L, F, s, ranges, true).value;
    TruncsOfReals(Missing(L / 2, Flatten(kg0)));
    assert kg[..|ranges| + 1] == kg0;
    forall k
      ensures k in Flatten(kg0) <==> !Unheld(k, kg0)
    {
      FlattenMembers(kg0, k);
    }
  }
}
