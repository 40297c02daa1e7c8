/** The trimmed copy of the CiSSA engine in models/cissa.py. Its diagonal
    averaging is the same code as CiSSA/pycissa.py's (DiagonalAverager), its
    decomposition differs in the window check and in a broken
    autoregressive extension, its grouping accepts only an integer cadence,
    and its `build_groupings` starts `min_k` at L and truncates the seasonal
    harmonics at once. */
module ModelsCissa {
  import opened Common
  import opened SeriesExtender
  import opened Decomposer
  import opened Completeness
  import opened Grouper
  import opened Groupings
  import opened CissaScript

  // ---------------------------------------------------------------------
  // extend (models/cissa.py:90-121)
  // ---------------------------------------------------------------------

  /** `extend(x, H)` as written: no checks on x or H; H = 0 copies, H = T
      mirrors, and any other H runs the autoregressive branch, whose
      `np.concatenate([0], np.cumsum(dy))` (line 114) hands the cumulative
      sum to the axis parameter and raises inside numpy. */
  function ExtendAsWritten(x: seq<real>, H: int): (r: Result<seq<real>>)
    ensures r.Err? <==> H != 0 && H != |x|
    ensures r.Err? ==> r.error == LibraryError
    ensures r.Ok? ==> |r.value| == |x| + 2 * H && r.value[H..H + |x|] == x
  {
    if H == 0 then Ok(x)
    else if H == |x| then
      var xe := Reverse(x) + x + Reverse(x);
      assert xe[H..H + |x|] == x;
      Ok(xe)
    else Err(LibraryError)
  }

  /** Where the copy does not raise it agrees with pycissa's `extend` on the
      same series as a column, whatever the autoregressive branch does. */
  lemma ExtendAgrees(x: seq<real>, H: int, ar: (seq<real>, int) -> seq<real>)
    requires H == 0 || H == |x|
    ensures ExtendAsWritten(x, H) == Extend(ColumnVector(x), PyInt(H), ar)
  {
  }

  // ---------------------------------------------------------------------
  // cissa (models/cissa.py:175-250)
  // ---------------------------------------------------------------------

  /** `cissa(x, L, H)` as written, U the basis the code derives from
      `dft(L)`. The window check rejects L >= T - L + 1; the mode maps to an
      extension length as in pycissa (1 mirrors, 2 does not extend, anything
      else, the default 0 included, asks for the autoregressive extension of
      length L); then comes the extension; a window below 1 fails at
      `gam[0]` of an empty array. */
  function CissaAsWritten(x: seq<real>, L: int, H: int, U: seq<seq<real>>): (r: Result<Decomposition>)
    requires L >= 1 ==> Shape(U, L, L)
    ensures r == Err(ValueError) <==> L >= |x| - L + 1
    ensures r.Ok? <==> 1 <= L && 2 * L <= |x| && (H == 1 || H == 2)
    ensures r.Ok? ==> (Shape(r.value.Z, L / 2 + 1, |x|) &&
      |r.value.psd| == L && forall k :: 0 <= k < L ==> r.value.psd[k] >= 0.0)
  {
    var T := |x|;
    if L >= T - L + 1 then Err(ValueError)
    else
      var h := ExtensionAmount(H, T, L);
      match ExtendAsWritten(x, h)
      case Err(e) => Err(e)
      case Ok(xe) =>
        if L < 1 then Err(IndexError)
        else Ok(Decomposition(ExtendedComponents(xe, L, h, U), Spectrum(x, L, U)))
  }

  /** The same function with the autoregressive branch repaired
      (`np.concatenate([[0], np.cumsum(dy)])`, pycissa's `np.append(0, ...)`),
      ar standing for that branch. A negative extension length asks numpy
      for an array of negative size, which fails inside numpy as it does in
      the version as written. */
  function CissaIntended(x: seq<real>, L: int, H: int, U: seq<seq<real>>, ar: (seq<real>, int) -> seq<real>):
    (r: Result<Decomposition>)
    requires ArExtensionShape(ar) && (L >= 1 ==> Shape(U, L, L))
    ensures r == Err(ValueError) <==> L >= |x| - L + 1
    ensures r == Err(LibraryError) <==> L < |x| - L + 1 && L < 0 && H != 1 && H != 2
    ensures r.Ok? <==> 1 <= L && 2 * L <= |x|
    ensures r.Ok? ==> (Shape(r.value.Z, L / 2 + 1, |x|) &&
      |r.value.psd| == L && forall k :: 0 <= k < L ==> r.value.psd[k] >= 0.0)
  {
    if L >= |x| - L + 1 then Err(ValueError)
    else
      var h := ExtensionAmount(H, |x|, L);
      if h < 0 then Err(LibraryError)
      else if L < 1 then Err(IndexError)
      else Ok(Decomposition(Components(x, L, h, U, ar), Spectrum(x, L, U)))
  }

  /** The default mode (H = 0) always fails as written: the window check
      fails, or L = 0 reaches `gam[0]`, or the extension of length L is
      neither 0 nor T and runs the broken branch. */
  lemma DefaultModeFails(x: seq<real>, L: int, U: seq<seq<real>>)
    requires L >= 1 ==> Shape(U, L, L)
    ensures CissaAsWritten(x, L, 0, U).Err?
  {
  }

  /** Wherever the copy succeeds, the repaired version gives the same
      decomposition. */
  lemma CissaAgrees(x: seq<real>, L: int, H: int, U: seq<seq<real>>, ar: (seq<real>, int) -> seq<real>)
    requires ArExtensionShape(ar) && (L >= 1 ==> Shape(U, L, L))
    requires CissaAsWritten(x, L, H, U).Ok?
    ensures CissaIntended(x, L, H, U, ar) == CissaAsWritten(x, L, H, U)
  {
    var h := ExtensionAmount(H, |x|, L);
    ExtendAgrees(x, h, ar);
  }

  /** For an orthonormal basis the components of the copy add up to the
      series at every time point. */
  lemma CissaComponentsAddUp(x: seq<real>, L: int, H: int, U: seq<seq<real>>, t: int)
    requires |U| == L && Orthonormal(U) && CissaAsWritten(x, L, H, U).Ok? && 0 <= t < |x|
    ensures Sum(RowOf(CissaAsWritten(x, L, H, U).value.Z, t)) == x[t]
  {
    var h := ExtensionAmount(H, |x|, L);
    var xe := ExtendAsWritten(x, h).value;
    ExtendedComponentsAddUp(xe, L, h, U, t);
    assert xe[t + h] == xe[h..h + |x|][t];
  }

  /** The code of `cissa`, step by step: the covariance matrices, the
      elementary reconstructions and the pairing are the loops of the
      pycissa version. */
  method Cissa(x: seq<real>, L: int, H: int, U: seq<seq<real>>) returns (r: Result<Decomposition>)
    requires L >= 1 ==> Shape(U, L, L)
    ensures r == CissaAsWritten(x, L, H, U)
  {
    var T := |x|;
    var N := T - L + 1;
    if L >= N {
      return Err(ValueError);
    }
    var h := ExtensionAmount(H, T, L);
    var ext := ExtendAsWritten(x, h);
    if ext.Err? {
      return Err(ext.error);
    }
    if L < 1 {
      return Err(IndexError);
    }
    var xe := ext.value;
    var X := Trajectory(xe, L);
    var gam := Gam(x, L);
    var S, C := CovarianceMatrices(gam);
    var Cm := seq(L, i requires 0 <= i < L reads C => seq(L, j requires 0 <= j < L reads C => C[i, j]));
    ghost var Cg := CirculantMatrix(gam);
    forall i | 0 <= i < L
      ensures Cm[i] == Cg[i]
    {
      assert forall j :: 0 <= j < L ==> Cm[i][j] == C[i, j] == Cg[i][j];
    }
    assert Cm == Cg;
    var psd := Psd(U, Cm);
    var W := PrincipalComponents(U, X);
    var R := ElementarySeries(U, W, false);
    var Z := PairByFrequency(R);
    Z := Trimmed(Z, h);
    return Ok(Decomposition(Z, psd));
  }

  // ---------------------------------------------------------------------
  // group (models/cissa.py:123-173)
  // ---------------------------------------------------------------------

  /** `isinstance(I, int) and I > 0`: a positive int, or True, which Python
      counts as the int 1. */
  function CadenceArg(I: PyArg): (s: Option<int>)
    ensures s.Some? <==> (I.PyInt? && I.i > 0) || I == PyBool(true)
    ensures s.Some? ==> s.value >= 1 && (I.PyInt? ==> s.value == I.i)
  {
    match I
    case PyInt(i) => if i > 0 then Some(i) else None
    case PyBool(b) => if b then Some(1) else None
    case _ => None
  }

  /** What `astype(int)` gives for inf and nan on the usual 64-bit
      platforms: the least int64. */
  const NonFiniteIndex: int := -0x8000_0000_0000_0000

  /** `(L*np.arange(1, floor(s/2)+1)/(season_length*s)).astype(int)`: the
      seasonal harmonics truncated toward zero; a zero denominator gives inf
      or nan, which the cast turns into NonFiniteIndex. */
  function SeasonalIndices(L: int, s: int, seasonLength: real): (v: seq<int>)
    ensures |v| == Max(0, (s as real / 2.0).Floor)
    ensures seasonLength * s as real == 0.0 ==> forall j :: 0 <= j < |v| ==> v[j] == NonFiniteIndex
  {
    var sr := s as real;
    if seasonLength * sr == 0.0 then seq(Max(0, (sr / 2.0).Floor), _ => NonFiniteIndex)
    else Truncs(Seasonality(L, sr, seasonLength))
  }

  /** The groups of the integer cadence s: seasonality, long term cycle,
      trend and (with include_noise) noise. A zero period is a
      ZeroDivisionError; an empty cycle makes `kg['long term cycle'][0]` an
      IndexError. */
  function CadenceGroupsModels(L: nat, F: int, s: int, seasonLength: real, shortest: real, longest: real,
                               includeNoise: bool): (r: Result<Groups>)
    ensures r.Err? <==> (longest * s as real == 0.0 || shortest * s as real == 0.0 ||
      CycleEnd(L, F, s as real, shortest) <= CycleStart(L, s as real, longest))
    ensures r.Err? ==> r.error == (if longest * s as real == 0.0 || shortest * s as real == 0.0 then ZeroDivisionError else IndexError)
  {
    var sr := s as real;
    if longest * sr == 0.0 || shortest * sr == 0.0 then Err(ZeroDivisionError)
    else
      var lo, hi := CycleStart(L, sr, longest), CycleEnd(L, F, sr, shortest);
      if hi <= lo then Err(IndexError)
      else Ok(CadenceNamed(Reals(SeasonalIndices(L, s, seasonLength)), Range(lo, hi), Range(0, lo), L, includeNoise))
  }

  /** `pzz` with numpy slicing, which never raises: psd[0:1], then
      psd[1:F] doubled (odd L), or psd[1:F-1] doubled and psd[F-1:F] (even
      L). */
  function PzzSliced(psd: seq<real>, F: int): seq<real>
  {
    if |psd| % 2 == 1 then Slice(psd, 0, 1) + Doubled(Slice(psd, 1, F))
    else Slice(psd, 0, 1) + Doubled(Slice(psd, 1, F - 1)) + Slice(psd, F - 1, F)
  }

  /** With the F = floor(L/2) + 1 columns of a decomposition, pzz is the
      one of pycissa. */
  lemma PzzAgrees(psd: seq<real>)
    requires |psd| >= 1
    ensures Pzz(psd, |psd| / 2 + 1).Ok? && PzzSliced(psd, |psd| / 2 + 1) == Pzz(psd, |psd| / 2 + 1).value
  {
    var L, F := |psd|, |psd| / 2 + 1;
    assert Slice(psd, 0, 1) == [psd[0]];
    if L % 2 == 0 {
      assert Slice(psd, F - 1, F) == [psd[F - 1]];
    }
  }

  /** `group(Z, psd, I, season_length, cycle_length, include_noise)` with
      cycle_length = [shortest, longest]; Z is stored as its F columns of
      length T, psd is the spectrum as a column. */
  function GroupModels(Z: seq<seq<real>>, T: nat, psd: seq<real>, I: PyArg, seasonLength: real,
                       shortest: real, longest: real, includeNoise: bool): (r: Result<Grouping>)
    requires Shape(Z, |Z|, T)
    ensures r == Err(ValueError) <==> CadenceArg(I).None?
  {
    match CadenceArg(I)
    case None => Err(ValueError)
    case Some(s) =>
      match CadenceGroupsModels(|psd|, |Z|, s, seasonLength, shortest, longest, includeNoise)
      case Err(e) => Err(e)
      case Ok(kg) =>
        match OutputsOf(Z, T, PzzSliced(psd, |Z|), kg)
        case Err(e) => Err(e)
        case Ok(out) => Ok(Grouping(out.0, out.1, kg))
  }

  /** The code of `group`: the groups, then the loop over them
      (models/cissa.py:168-171). */
  method Group(Z: seq<seq<real>>, T: nat, psd: seq<real>, I: PyArg, seasonLength: real,
               shortest: real, longest: real, includeNoise: bool) returns (r: Result<Grouping>)
    requires Shape(Z, |Z|, T)
    ensures r == GroupModels(Z, T, psd, I, seasonLength, shortest, longest, includeNoise)
  {
    var s := CadenceArg(I);
    if s.None? {
      return Err(ValueError);
    }
    var kg := CadenceGroupsModels(|psd|, |Z|, s.value, seasonLength, shortest, longest, includeNoise);
    if kg.Err? {
      return Err(kg.error);
    }
    var out := Outputs(Z, T, PzzSliced(psd, |Z|), kg.value);
    if out.Err? {
      return Err(out.error);
    }
    return Ok(Grouping(out.value.0, out.value.1, kg.value));
  }

  /** A defined grouping holds the seasonal indices, the cycle between its
      bounds, the trend from 0 up to the cycle's first index and the
      frequencies below L/2 that no other group holds; rc and sh hold one
      entry per group, the row sums of Z and the pzz shares. */
  lemma GroupModelsContents(Z: seq<seq<real>>, T: nat, psd: seq<real>, I: PyArg, seasonLength: real,
                            shortest: real, longest: real, includeNoise: bool)
    requires Shape(Z, |Z|, T)
    requires GroupModels(Z, T, psd, I, seasonLength, shortest, longest, includeNoise).Ok?
    ensures CadenceArg(I).Some?
    ensures var s, L := CadenceArg(I).value, |psd|;
      var lo, hi := CycleStart(L, s as real, longest), CycleEnd(L, |Z|, s as real, shortest);
      var r := GroupModels(Z, T, psd, I, seasonLength, shortest, longest, includeNoise).value;
      lo < hi && |r.kg| == (if includeNoise then 4 else 3) &&
      r.kg[0] == (Name("seasonality"), Reals(SeasonalIndices(L, s, seasonLength))) &&
      r.kg[1] == (Name("long term cycle"), Reals(Range(lo, hi))) &&
      r.kg[2] == (Name("trend"), Reals(Range(0, lo))) &&
      (includeNoise ==> r.kg[3].0 == Name("noise") && IsNoise(r.kg[3].1, r.kg[..3], L)) &&
      OutputsMatch(Z, T, PzzSliced(psd, |Z|), r.kg, r.rc, r.sh)
  {
    var s, L := CadenceArg(I).value, |psd|;
    var r := GroupModels(Z, T, psd, I, seasonLength, shortest, longest, includeNoise).value;
    OutputsContents(Z, T, PzzSliced(psd, |Z|), r.kg);
    if includeNoise {
      var kg0 := r.kg[..3];
      TruncsOfReals(Missing(L / 2, Flatten(kg0)));
      forall k
        ensures k in Flatten(kg0) <==> !Unheld(k, kg0)
      {
        FlattenMembers(kg0, k);
      }
    }
  }

  /** `int()` of a whole number gives it back. */
  lemma TruncsTwice(v: seq<real>)
    ensures Truncs(Reals(Truncs(v))) == Truncs(v)
  {
    forall i | 0 <= i < |v|
      ensures Trunc(Truncs(v)[i] as real) == Truncs(v)[i]
    {
      var n := Truncs(v)[i];
      if n < 0 {
        assert -(n as real) == (-n) as real;
      }
    }
  }

  /** Groups that agree key by key once truncated collect the same indices. */
  lemma {:induction false} FlattenTruncated(a: Groups, b: Groups)
    requires |a| == |b| && forall g :: 0 <= g < |a| ==> Truncs(a[g].1) == Truncs(b[g].1)
    ensures Flatten(a) == Flatten(b)
    decreases |a|
  {
    if |a| > 0 {
      var n := |a| - 1;
      FlattenTruncated(a[..n], b[..n]);
    }
  }

  /** The copy's groups are pycissa's cadence groups once truncated by
      `int()`: for a nonzero season both fail together, and where they are
      defined they hold the same keys and the same indices. */
  lemma CadenceAgrees(L: nat, F: int, s: int, seasonLength: real, shortest: real, longest: real,
                      includeNoise: bool)
    requires s >= 1 && seasonLength != 0.0
    ensures var m, p := CadenceGroupsModels(L, F, s, seasonLength, shortest, longest, includeNoise),
                        CadenceGroups(L, F, s as real, seasonLength, shortest, longest, includeNoise);
      m.Ok? == p.Ok? &&
      (m.Ok? ==> (|m.value| == |p.value| &&
        forall g :: 0 <= g < |m.value| ==> m.value[g].0 == p.value[g].0 && Truncs(m.value[g].1) == Truncs(p.value[g].1)))
  {
    var sr := s as real;
    var m, p := CadenceGroupsModels(L, F, s, seasonLength, shortest, longest, includeNoise),
                CadenceGroups(L, F, sr, seasonLength, shortest, longest, includeNoise);
    if m.Ok? {
      var lo, hi := CycleStart(L, sr, longest), CycleEnd(L, F, sr, shortest);
      var v := Seasonality(L, sr, seasonLength);
      var a, b := m.value, p.value;
      assert a == CadenceNamed(Reals(Truncs(v)), Range(lo, hi), Range(0, lo), L, includeNoise);
      assert b == CadenceNamed(v, Range(lo, hi), Range(0, lo), L, includeNoise);
      TruncsTwice(v);
      FlattenTruncated(a[..3], b[..3]);
    }
  }

  // ---------------------------------------------------------------------
  // get_cissa (models/cissa.py:252-281)
  // ---------------------------------------------------------------------

  /** `group(Z, psd, 12)` with the default season and cycle lengths. A
      decomposition of `cissa` always has F columns of length T (the shape
      its contract states), so the IndexError branch only stands for a
      matrix no call produces. */
  function GroupDefault(d: Decomposition, T: nat): (r: Result<Grouping>)
    ensures Shape(d.Z, |d.Z|, T) ==> r == GroupModels(d.Z, T, d.psd, PyInt(12), 1.0, 1.5, 8.0, true)
  {
    if Shape(d.Z, |d.Z|, T) then GroupModels(d.Z, T, d.psd, PyInt(12), 1.0, 1.5, 8.0, true)
    else Err(IndexError)
  }

  /** `get_cissa(series, L, use_max_L)` as written: `cissa` in its default
      mode, then `group` with cadence 12 and its default season and cycle
      lengths. */
  function GetCissaAsWritten(x: seq<real>, L: int, useMaxL: bool, U: seq<seq<real>>): (r: Result<Grouping>)
    requires BasisFits(|x|, L, useMaxL, U)
    ensures GetWindow(|x|, L, useMaxL).Err? ==> r == Err(ValueError)
  {
    match GetWindow(|x|, L, useMaxL)
    case Err(e) => Err(e)
    case Ok(w) =>
      match CissaAsWritten(x, w, 0, U)
      case Err(e) => Err(e)
      case Ok(d) => GroupDefault(d, |x|)
  }

  /** The same with the repaired extension: the default mode then extends by
      L through the autoregressive model ar. */
  function GetCissaIntended(x: seq<real>, L: int, useMaxL: bool, U: seq<seq<real>>,
                            ar: (seq<real>, int) -> seq<real>): (r: Result<Grouping>)
    requires ArExtensionShape(ar) && BasisFits(|x|, L, useMaxL, U)
    ensures GetWindow(|x|, L, useMaxL).Err? ==> r == Err(ValueError)
  {
    match GetWindow(|x|, L, useMaxL)
    case Err(e) => Err(e)
    case Ok(w) =>
      match CissaIntended(x, w, 0, U, ar)
      case Err(e) => Err(e)
      case Ok(d) => GroupDefault(d, |x|)
  }

  /** As written, get_cissa fails on every series; with the largest window
      of a series of 26 points or more, it fails in the broken extension
      branch (the window check passes). */
  lemma GetCissaAlwaysFails(x: seq<real>, L: int, useMaxL: bool, U: seq<seq<real>>)
    requires BasisFits(|x|, L, useMaxL, U)
    ensures GetCissaAsWritten(x, L, useMaxL, U).Err?
    ensures useMaxL && |x| >= 26 ==> GetCissaAsWritten(x, L, useMaxL, U) == Err(LibraryError)
  {
    match GetWindow(|x|, L, useMaxL)
    case Err(_) =>
    case Ok(w) =>
      DefaultModeFails(x, w, U);
  }

  /** The seasonal harmonics of cadence 12 are indices below F = L/2 + 1. */
  lemma DefaultSeasonalValid(L: nat, F: int)
    requires L >= 12 && L % 12 == 0 && F == L / 2 + 1
    ensures ValidFor(F, Reals(SeasonalIndices(L, 12, 1.0)))
  {
    var seas := SeasonalIndices(L, 12, 1.0);
    forall j | 0 <= j < |seas|
      ensures 0 <= seas[j] < F
    {
      HarmonicIndex(L, 12, j);
    }
    ValidIndices(F, seas);
  }

  /** The groups of the default cadence hold indices below F = L/2 + 1. */
  lemma DefaultGroupsValid(Z: seq<seq<real>>, T: nat, psd: seq<real>)
    requires |psd| >= 12 && |psd| % 12 == 0 && |Z| == |psd| / 2 + 1 && Shape(Z, |Z|, T)
    ensures GroupModels(Z, T, psd, PyInt(12), 1.0, 1.5, 8.0, true).Ok?
  {
    var L, F := |psd|, |Z|;
    DefaultCycleBounds(L);
    var lo, hi := CycleStart(L, 12.0, 8.0), CycleEnd(L, F, 12.0, 1.5);
    var kg := CadenceGroupsModels(L, F, 12, 1.0, 1.5, 8.0, true).value;
    var pzz := PzzSliced(psd, F);
    PzzAgrees(psd);
    PzzOfSpectrum(psd);
    assert |pzz| == F;
    DefaultSeasonalValid(L, F);
    ValidIndices(F, Range(lo, hi));
    ValidIndices(F, Range(0, lo));
    ValidIndices(F, Missing(L / 2, Flatten(kg[..3])));
    OutputsDefined(Z, T, pzz, kg);
  }

  /** With the extension repaired, get_cissa with the largest window
      succeeds on every series of 26 points or more. */
  lemma GetCissaIntendedSucceeds(x: seq<real>, L: int, U: seq<seq<real>>, ar: (seq<real>, int) -> seq<real>)
    requires ArExtensionShape(ar) && BasisFits(|x|, L, true, U) && |x| >= 26
    ensures GetCissaIntended(x, L, true, U, ar).Ok?
  {
    var w := MaxWindow(|x|);
    var d := CissaIntended(x, w, 0, U, ar).value;
    DefaultGroupsValid(d.Z, |x|, d.psd);
  }

  // ---------------------------------------------------------------------
  // build_groupings (models/cissa.py:9-54)
  // ---------------------------------------------------------------------

  /** What kg stores for one band: the harmonics cast by `astype(int)`
      (inf and nan, from a zero product, become NonFiniteIndex), the cycle as
      it is. */
  function Stored(b: Band): (v: seq<real>)
    ensures b.Unbounded? ==> |v| == b.count && forall j :: 0 <= j < |v| ==> v[j] == NonFiniteIndex as real
    ensures !b.Unbounded? ==> Truncs(v) == Truncs(BandValues(b))
  {
    match b
    case Harmonics(f) => TruncsTwice(f); Reals(Truncs(f))
    case Cycle(lo, hi) => Reals(Range(lo, hi))
    case Unbounded(m) => Reals(seq(m, _ => NonFiniteIndex))
  }

  function StoredValues(bands: seq<(Key, Band)>): (kg: Groups)
    ensures |kg| == |bands| && forall i :: 0 <= i < |bands| ==> kg[i] == (bands[i].0, Stored(bands[i].1))
  {
    seq(|bands|, i requires 0 <= i < |bands| => (bands[i].0, Stored(bands[i].1)))
  }

  /** `build_groupings` of the copy, with L = len(psd), F the number of
      columns of z and s = data_per_unit_period. The proportionality check
      uses Python's `%`, so s = 0 is a ZeroDivisionError; `min_k` starts at
      L; the arrays are those of pycissa, with the harmonics stored as
      integers, so an inf or nan array goes through to the result instead
      of failing. */
  function BuildSpecModels(L: nat, F: int, s: int, ranges: PeriodRanges, includeNoise: bool): (r: Result<Groups>)
    ensures s == 0 ==> r == Err(ZeroDivisionError)
    ensures s != 0 && L % s != 0 ==> r == Err(ValueError)
  {
    if s == 0 then Err(ZeroDivisionError)
    else if L % s != 0 then Err(ValueError)
    else
      match Scan(L, F, s, ranges, L as real)
      case Err(e) => Err(e)
      case Ok(state) =>
        var kg := StoredValues(Update(state.0, Name("trend"), Cycle(0, Trunc(state.1))));
        if includeNoise then Ok(Update(kg, Name("noise"), Reals(Missing(L / 2, Flatten(kg)))))
        else Ok(kg)
  }

  /** The loop over the ranges, then the trend and the noise. */
  method BuildGroupingsModels(L: nat, F: int, s: int, ranges: PeriodRanges, includeNoise: bool)
    returns (r: Result<Groups>)
    ensures r == BuildSpecModels(L, F, s, ranges, includeNoise)
  {
    if s == 0 {
      return Err(ZeroDivisionError);
    }
    if L % s != 0 {
      return Err(ValueError);
    }
    var bands: seq<(Key, Band)> := [];
    var minK := L as real;
    for i := 0 to |ranges|
      invariant Scan(L, F, s, ranges[..i], L as real) == Ok((bands, minK))
    {
      assert ranges[..i + 1][..i] == ranges[..i];
      var b := BandOf(L, F, s, ranges[i].1);
      if b.Err? {
        ScanStops(L, F, s, ranges, L as real, i + 1);
        return Err(b.error);
      }
      bands := Update(bands, ranges[i].0, b.value);
      minK := LowerMin(minK, b.value);
    }
    assert ranges[..|ranges|] == ranges;
    var kg := StoredValues(Update(bands, Name("trend"), Cycle(0, Trunc(minK))));
    if includeNoise {
      var current := CollectIndices(kg);
      kg := Update(kg, Name("noise"), Reals(Missing(L / 2, current)));
    }
    return Ok(kg);
  }

  /** The result is defined exactly when s is nonzero and divides L and
      every range yields a non-empty array with no division by zero; unlike
      pycissa's, an equal-bounds range with a zero product does not fail. */
  lemma BuildModelsSucceeds(L: nat, F: int, s: int, ranges: PeriodRanges, includeNoise: bool)
    ensures BuildSpecModels(L, F, s, ranges, includeNoise).Ok? <==>
      s != 0 && L % s == 0 && forall i :: 0 <= i < |ranges| ==> BandOf(L, F, s, ranges[i].1).Ok?
  {
    if s != 0 && L % s == 0 {
      if forall i :: 0 <= i < |ranges| ==> BandOf(L, F, s, ranges[i].1).Ok? {
        ScanOk(L, F, s, ranges, L as real);
      } else {
        var i :| 0 <= i < |ranges| && BandOf(L, F, s, ranges[i].1).Err?;
        ScanFails(L, F, s, ranges, L as real, i);
      }
    }
  }

  /** The lower of two reals. */
  function Lower(a: real, b: real): (m: real)
    ensures m <= a && m <= b && (m == a || m == b)
  {
    if b < a then b else a
  }

  /** A scan from a lower start a gives the same bands, and its `min_k` is
      the other scan's capped at a. */
  lemma {:induction false} ScanStart(L: nat, F: int, s: int, ranges: PeriodRanges, a: real, b: real)
    requires a <= b
    ensures Scan(L, F, s, ranges, a).Ok? == Scan(L, F, s, ranges, b).Ok?
    ensures Scan(L, F, s, ranges, a).Ok? ==>
      Scan(L, F, s, ranges, a).value.0 == Scan(L, F, s, ranges, b).value.0 &&
      Scan(L, F, s, ranges, a).value.1 == Lower(a, Scan(L, F, s, ranges, b).value.1)
    ensures Scan(L, F, s, ranges, a).Err? ==> Scan(L, F, s, ranges, a) == Scan(L, F, s, ranges, b)
    decreases |ranges|
  {
    if |ranges| > 0 {
      ScanStart(L, F, s, ranges[..|ranges| - 1], a, b);
    }
  }

  /** With no range called trend or noise, a defined result holds the
      ranges as stored, then the trend, then (with include_noise) one more
      group. */
  lemma BuildModelsPrefix(L: nat, F: int, s: int, ranges: PeriodRanges, includeNoise: bool)
    requires DistinctKeys(ranges) && !HasKey(ranges, Name("trend")) && !HasKey(ranges, Name("noise"))
    requires BuildSpecModels(L, F, s, ranges, includeNoise).Ok?
    ensures Scan(L, F, s, ranges, L as real).Ok?
    ensures var state := Scan(L, F, s, ranges, L as real).value;
      var kg0 := StoredValues(state.0 + [(Name("trend"), Cycle(0, Trunc(state.1)))]);
      var kg := BuildSpecModels(L, F, s, ranges, includeNoise).value;
      |state.0| == |ranges| && |kg0| == |ranges| + 1 &&
      (forall i :: 0 <= i < |ranges| ==> state.0[i].0 == ranges[i].0 && BandOf(L, F, s, ranges[i].1) == Ok(state.0[i].1)) &&
      kg == (if includeNoise then kg0 + [(Name("noise"), Reals(Missing(L / 2, Flatten(kg0))))] else kg0)
  {
    TrendBands(L, F, s, ranges, L as real);
    var state := Scan(L, F, s, ranges, L as real).value;
    var kg0 := StoredValues(state.0 + [(Name("trend"), Cycle(0, Trunc(state.1)))]);
    assert !HasKey(kg0, Name("noise")) by {
      forall i | 0 <= i < |kg0|
        ensures kg0[i].0 != Name("noise")
      {
        if i < |ranges| {
          assert kg0[i].0 == ranges[i].0;
        }
      }
    }
  }

  /** With no range called trend or noise: every range under its own key,
      holding the indices of pycissa's array (the NonFiniteIndex values for
      an inf or nan one); then the trend from 0 up to `int(min_k)`, where
      min_k is the lowest value of any range's array or L when that is
      lower; then, with include_noise, every frequency below L/2 that no
      other group holds. */
  lemma BuildModelsContents(L: nat, F: int, s: int, ranges: PeriodRanges, includeNoise: bool)
    requires DistinctKeys(ranges) && !HasKey(ranges, Name("trend")) && !HasKey(ranges, Name("noise"))
    requires BuildSpecModels(L, F, s, ranges, includeNoise).Ok?
    ensures Scan(L, F, s, ranges, L as real).Ok?
    ensures var state := Scan(L, F, s, ranges, L as real).value;
      var kg := BuildSpecModels(L, F, s, ranges, includeNoise).value;
      |kg| == |ranges| + (if includeNoise then 2 else 1) &&
      (forall i :: 0 <= i < |ranges| ==> (BandOf(L, F, s, ranges[i].1).Ok? &&
        kg[i] == (ranges[i].0, Stored(BandOf(L, F, s, ranges[i].1).value)))) &&
      kg[|ranges|] == (Name("trend"), Reals(Range(0, Trunc(state.1)))) &&
      Lowest(state.1, L as real, Values(state.0)) &&
      (includeNoise ==> kg[|ranges| + 1].0 == Name("noise") && IsNoise(kg[|ranges| + 1].1, kg[..|ranges| + 1], L))
  {
    BuildModelsRanges(L, F, s, ranges, includeNoise);
    BuildModelsTrend(L, F, s, ranges, includeNoise);
    ScanLowest(L, F, s, ranges, L as real);
    if includeNoise {
      BuildModelsNoise(L, F, s, ranges);
    }
  }

  /** The ranges come first, each under its own key with its array stored. */
  lemma BuildModelsRanges(L: nat, F: int, s: int, ranges: PeriodRanges, includeNoise: bool)
    requires DistinctKeys(ranges) && !HasKey(ranges, Name("trend")) && !HasKey(ranges, Name("noise"))
    requires BuildSpecModels(L, F, s, ranges, includeNoise).Ok?
    ensures var kg := BuildSpecModels(L, F, s, ranges, includeNoise).value;
      |kg| > |ranges| &&
      forall i :: 0 <= i < |ranges| ==> (BandOf(L, F, s, ranges[i].1).Ok? &&
        kg[i] == (ranges[i].0, Stored(BandOf(L, F, s, ranges[i].1).value)))
  {
    BuildModelsPrefix(L, F, s, ranges, includeNoise);
    var state := Scan(L, F, s, ranges, L as real).value;
    var bands := state.0 + [(Name("trend"), Cycle(0, Trunc(state.1)))];
    var kg0 := StoredValues(bands);
    var kg := BuildSpecModels(L, F, s, ranges, includeNoise).value;
    forall i | 0 <= i < |ranges|
      ensures BandOf(L, F, s, ranges[i].1).Ok? && kg[i] == (ranges[i].0, Stored(BandOf(L, F, s, ranges[i].1).value))
    {
      assert kg[i] == kg0[i] && bands[i] == state.0[i];
    }
  }

  /** The trend follows the ranges, and with include_noise one more group. */
  lemma BuildModelsTrend(L: nat, F: int, s: int, ranges: PeriodRanges, includeNoise: bool)
    requires DistinctKeys(ranges) && !HasKey(ranges, Name("trend")) && !HasKey(ranges, Name("noise"))
    requires BuildSpecModels(L, F, s, ranges, includeNoise).Ok?
    ensures Scan(L, F, s, ranges, L as real).Ok?
    ensures var state := Scan(L, F, s, ranges, L as real).value;
      var kg := BuildSpecModels(L, F, s, ranges, includeNoise).value;
      |kg| == |ranges| + (if includeNoise then 2 else 1) &&
      kg[|ranges|] == (Name("trend"), Reals(Range(0, Trunc(state.1))))
  {
    BuildModelsPrefix(L, F, s, ranges, includeNoise);
    var state := Scan(L, F, s, ranges, L as real).value;
    var bands := state.0 + [(Name("trend"), Cycle(0, Trunc(state.1)))];
    var kg0 := StoredValues(bands);
    var kg := BuildSpecModels(L, F, s, ranges, includeNoise).value;
    assert kg[|ranges|] == kg0[|ranges|] && bands[|ranges|] == (Name("trend"), Cycle(0, Trunc(state.1)));
  }


  /** With include_noise, the last group holds every frequency below L/2
      that the groups before it do not. */
  lemma BuildModelsNoise(L: nat, F: int, s: int, ranges: PeriodRanges)
    requires DistinctKeys(ranges) && !HasKey(ranges, Name("trend")) && !HasKey(ranges, Name("noise"))
    requires BuildSpecModels(L, F, s, ranges, true).Ok?
    ensures var kg := BuildSpecModels(L, F, s, ranges, true).value;
      |kg| == |ranges| + 2 && kg[|ranges| + 1].0 == Name("noise") && IsNoise(kg[|ranges| + 1].1, kg[..|ranges| + 1], L)
  {
    BuildModelsPrefix(L, F, s, ranges, true);
    var state := Scan(L, F, s, ranges, L as real).value;
    var kg0 := StoredValues(state.0 + [(Name("trend"), Cycle(0, Trunc(state.1)))]);
    var kg := BuildSpecModels(L, F, s, ranges, true).value;
    TruncsOfReals(Missing(L / 2, Flatten(kg0)));
    assert kg[..|ranges| + 1] == kg0;
    forall k
      ensures k in Flatten(kg0) <==> !Unheld(k, kg0)
    {
      FlattenMembers(kg0, k);
    }
  }

  /** Where pycissa's `build_groupings` succeeds with a nonzero s and a
      window L up to 1e9, so does the copy: each range holds the same
      indices, and the trend stops at the lower of L and pycissa's
      `min_k`. */
  lemma BuildModelsAgrees(L: nat, F: int, s: int, ranges: PeriodRanges, includeNoise: bool)
    requires DistinctKeys(ranges) && !HasKey(ranges, Name("trend")) && !HasKey(ranges, Name("noise"))
    requires s != 0 && L as real <= MinKStart && BuildSpec(L, F, s, ranges, includeNoise).Ok?
    ensures BuildSpecModels(L, F, s, ranges, includeNoise).Ok?
    ensures var m, p := BuildSpecModels(L, F, s, ranges, includeNoise).value, BuildSpec(L, F, s, ranges, includeNoise).value;
      |m| == |p| > |ranges| &&
      (forall i :: 0 <= i < |ranges| ==> m[i].0 == p[i].0 && Truncs(m[i].1) == Truncs(p[i].1)) &&
      m[|ranges|] == (Name("trend"), Reals(Range(0, Trunc(Lower(L as real, MinK(L, F, s, ranges))))))
  {
    BuildModelsSucceeds(L, F, s, ranges, includeNoise);
    assert BuildSpecModels(L, F, s, ranges, includeNoise).Ok? by {
      BuildSucceeds(L, F, s, ranges, includeNoise);
    }
    var m, p := BuildSpecModels(L, F, s, ranges, includeNoise).value, BuildSpec(L, F, s, ranges, includeNoise).value;
    assert Scan(L, F, s, ranges, L as real).Ok? &&
      |m| == |ranges| + (if includeNoise then 2 else 1) &&
      (forall i :: 0 <= i < |ranges| ==> (BandOf(L, F, s, ranges[i].1).Ok? &&
        m[i] == (ranges[i].0, Stored(BandOf(L, F, s, ranges[i].1).value)))) &&
      m[|ranges|] == (Name("trend"), Reals(Range(0, Trunc(Scan(L, F, s, ranges, L as real).value.1)))) by {
      BuildModelsContents(L, F, s, ranges, includeNoise);
    }
    assert |p| == |ranges| + (if includeNoise then 2 else 1) &&
      forall i :: 0 <= i < |ranges| ==> p[i] == (ranges[i].0, BandValues(BandOf(L, F, s, ranges[i].1).value)) by {
      BuildRanges(L, F, s, ranges, includeNoise);
    }
    assert forall i :: 0 <= i < |ranges| ==> !BandOf(L, F, s, ranges[i].1).value.Unbounded? by {
      BuildSucceeds(L, F, s, ranges, includeNoise);
    }
    assert Scan(L, F, s, ranges, L as real).value.1 == Lower(L as real, MinK(L, F, s, ranges)) by {
      ScanStart(L, F, s, ranges, L as real, MinKStart);
    }
    assert m[|ranges|] == (Name("trend"), Reals(Range(0, Trunc(Lower(L as real, MinK(L, F, s, ranges))))));
    forall i | 0 <= i < |ranges|
      ensures m[i].0 == p[i].0 && Truncs(m[i].1) == Truncs(p[i].1)
    {
      var b := BandOf(L, F, s, ranges[i].1).value;
      assert Truncs(Stored(b)) == Truncs(BandValues(b));
    }
  }
}
