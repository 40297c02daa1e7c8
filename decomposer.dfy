/** The decomposition step of CiSSA (CiSSA/pycissa.py `cissa`, lines 578-797):
    embed the extended series in a trajectory matrix, estimate the
    autocovariances, build the circulant matrix of second moments, project on
    the basis, reconstruct one elementary series per basis vector by diagonal
    averaging, pair the symmetric frequencies and trim the extension off.

    The DFT-derived real basis U is a parameter: it is produced by complex
    floating-point code (`dft`, square roots) and only its shape, and for the
    completeness theorem its orthonormality, matter here. */
module Decomposer {
  import opened Common
  import opened DiagonalAverager
  import opened SeriesExtender

  /** M has r rows of c entries each. */
  predicate Shape(M: seq<seq<real>>, r: int, c: int)
  {
    |M| == r && forall i :: 0 <= i < r ==> |M[i]| == c
  }

  function Zeros(n: nat): (z: seq<real>)
    ensures |z| == n && forall i :: 0 <= i < n ==> z[i] == 0.0
  {
    seq(n, _ => 0.0)
  }

  // ---------------------------------------------------------------------
  // Section 1: argument bookkeeping (pycissa.py:657-684)
  // ---------------------------------------------------------------------

  /** A one-row input is transposed into a column (pycissa.py:657-658). */
  function AsColumn(x: NdArray): (xc: NdArray)
    requires x.WellFormed()
    ensures xc.WellFormed()
    ensures x.rows == 1 ==> xc.cols == 1 && xc.ColumnValues() == x.cells[0]
    ensures x.rows != 1 ==> xc == x
  {
    if x.rows == 1 then ColumnVector(x.cells[0]) else x
  }

  /** The extension mode flag turned into an extension length: 1 mirrors
      (H = T), 2 does not extend (H = 0), anything else asks for the
      autoregressive extension of length L (pycissa.py:668-673). */
  function ExtensionAmount(mode: int, T: int, L: int): int
  {
    if mode == 1 then T else if mode == 2 then 0 else L
  }

  /** nf2, the number of symmetric frequency pairs (pycissa.py:677-680). */
  function NumPairs(L: int): int
  {
    if L % 2 == 1 then (L + 1) / 2 - 1 else L / 2 - 1
  }

  /** nft, the number of frequencies up to 1/2 (pycissa.py:684). */
  function NumFrequencies(L: int): int
  {
    NumPairs(L) + Abs((L % 2 - 2) as real).Floor
  }

  /** The frequency count is floor(L/2) + 1, and column 0, the nf2 pairs and
      (for even L) the middle column account for all L basis vectors. */
  lemma FrequencyCount(L: int)
    requires L >= 1
    ensures NumFrequencies(L) == L / 2 + 1
    ensures NumPairs(L) == (L - 1) / 2
    ensures 1 + 2 * NumPairs(L) + (if L % 2 == 0 then 1 else 0) == L
  {
  }

  // ---------------------------------------------------------------------
  // Section 2: trajectory matrix (pycissa.py:696-698)
  // ---------------------------------------------------------------------

  /** scipy's `hankel(c, r)`: first column c, last row r (whose first entry
      is ignored), constant along anti-diagonals. */
  function Hankel(c: seq<real>, r: seq<real>): (X: seq<seq<real>>)
    requires |c| >= 1 && |r| >= 1
    ensures Rectangular(X) && |X| == |c| && |X[0]| == |r|
  {
    seq(|c|, i requires 0 <= i < |c| =>
      seq(|r|, j requires 0 <= j < |r| => if i + j < |c| then c[i + j] else r[i + j - |c| + 1]))
  }

  /** `hankel(xe[0:L], xe[L-1:])`: the L x (|xe|-L+1) matrix whose (i, j)
      entry is xe[i+j]. */
  function Trajectory(xe: seq<real>, L: int): (X: seq<seq<real>>)
    requires 1 <= L <= |xe|
    ensures Rectangular(X) && Shape(X, L, |xe| - L + 1)
    ensures forall i, j :: 0 <= i < L && 0 <= j < |xe| - L + 1 ==> X[i][j] == xe[i + j]
  {
    Hankel(xe[..L], xe[L - 1..])
  }

  /** Every entry of an oriented trajectory matrix's t-th anti-diagonal is xe[t]. */
  lemma OrientedTrajectoryAt(xe: seq<real>, L: int, a: int, b: int)
    requires 1 <= L <= |xe|
    requires 0 <= a < |Oriented(Trajectory(xe, L))| && 0 <= b < |Oriented(Trajectory(xe, L))[0]|
    ensures Oriented(Trajectory(xe, L))[a][b] == xe[a + b]
  {
    var X := Trajectory(xe, L);
    if |X| > |X[0]| {
      assert Oriented(X)[a][b] == X[b][a];
    }
  }

  /** A worker averaging an anti-diagonal whose entries all equal xe[t]
      returns xe[t]. */
  lemma ConstantAntiDiagonal(Y: seq<seq<real>>, xe: seq<real>, t: int, N: int, L: int, T: int)
    requires WorkerInput(t, Y, N, L, T) && |xe| == T
    requires forall a, b :: 0 <= a < L && 0 <= b < N ==> Y[a][b] == xe[a + b]
    ensures DiagaverWorker(t, Y, N, L, T) == xe[t]
  {
    WorkerBoundsExact(t, N, L, T);
    var (jInf, jSup) := WorkerBounds(t, N, L, T);
    var terms := AntiDiagonalTerms(Y, t + 1, jInf, jSup);
    var n := jSup - jInf + 1;
    forall i | 0 <= i < |terms|
      ensures terms[i] == xe[t] / (n as real)
    {
      AntiDiagonalTermAt(Y, t + 1, jInf, jSup, jInf + i);
      assert Y[jInf + i - 1][t + 1 - (jInf + i)] == xe[t];
    }
    assert DiagaverWorker(t, Y, N, L, T) == Sum(terms);
    SumConstant(terms, xe[t] / (n as real));
    MulDivCancel(n as real, xe[t]);
  }

  /** Diagonal averaging inverts the embedding: averaging the anti-diagonals
      of the trajectory matrix gives back the extended series. */
  lemma TrajectoryRoundTrip(xe: seq<real>, L: int)
    requires 1 <= L <= |xe|
    ensures Diagaver(Trajectory(xe, L)) == xe
  {
    var X := Trajectory(xe, L);
    var Xo := Oriented(X);
    var Lo, No, T := |Xo|, |Xo[0]|, |xe|;
    forall a, b | 0 <= a < Lo && 0 <= b < No
      ensures Xo[a][b] == xe[a + b]
    {
      OrientedTrajectoryAt(xe, L, a, b);
    }
    forall t | 0 <= t < T
      ensures Diagaver(X)[t] == xe[t]
    {
      DiagaverAt(X, t);
      ConstantAntiDiagonal(Xo, xe, t, No, Lo, T);
    }
  }

  // ---------------------------------------------------------------------
  // Section 3: second moments (pycissa.py:710-726)
  // ---------------------------------------------------------------------

  function Mean(x: seq<real>): real
    requires |x| >= 1
  {
    Sum(x) / (|x| as real)
  }

  /** gam[k]: the sum of (x_t - mean)(x_{t+k} - mean)/(T-k) over t < T-k. */
  function Autocovariance(x: seq<real>, k: int): real
    requires 0 <= k < |x|
  {
    var m := Mean(x);
    var T := |x|;
    Sum(seq(T - k, t requires 0 <= t < T - k => (x[t] - m) * ((x[t + k] - m) / ((T - k) as real))))
  }

  /** The L autocovariances gam[0..L-1]. */
  function Gam(x: seq<real>, L: int): (gam: seq<real>)
    requires 1 <= L <= |x|
    ensures |gam| == L
    ensures forall k :: 0 <= k < L ==> gam[k] == Autocovariance(x, k)
  {
    seq(L, k requires 0 <= k < L => Autocovariance(x, k))
  }

  /** gam[0] is the variance of x and is never negative, so the circulant
      matrix has a non-negative diagonal. */
  lemma VarianceNonNegative(x: seq<real>)
    requires |x| >= 1
    ensures Autocovariance(x, 0) >= 0.0
  {
    var m := Mean(x);
    var T := |x|;
    var terms := seq(T, t requires 0 <= t < T => (x[t] - m) * ((x[t + 0] - m) / (T as real)));
    forall t | 0 <= t < T
      ensures terms[t] >= 0.0
    {
      var d := x[t] - m;
      var q := d / (T as real);
      assert q * (T as real) == d;
      assert terms[t] == (q * q) * (T as real);
    }
    SumNonNegative(terms);
  }

  /** |i - j| */
  function Lag(i: int, j: int): nat
  {
    if i <= j then j - i else i - j
  }

  /** S[i, j]: the symmetric Toeplitz matrix of autocovariances. */
  function ToeplitzEntry(gam: seq<real>, i: int, j: int): real
    requires 0 <= i < |gam| && 0 <= j < |gam|
  {
    gam[Lag(i, j)]
  }

  /** Pearl's (1973) circulant entry for lag 1 <= k < L. */
  function PearlEntry(gam: seq<real>, k: int): (c: real)
    requires 1 <= k < |gam|
  {
    var L := |gam|;
    (((L - k) as real) / (L as real)) * gam[k] + ((k as real) / (L as real)) * gam[L - k]
  }

  /** Lag k and lag L-k get the same circulant entry. */
  lemma PearlSymmetric(gam: seq<real>, k: int)
    requires 1 <= k < |gam|
    ensures PearlEntry(gam, k) == PearlEntry(gam, |gam| - k)
  {
  }

  /** C[i, j]: gam[0] on the diagonal (it starts as a copy of S), Pearl's
      entry for the lag elsewhere. */
  function CirculantEntry(gam: seq<real>, i: int, j: int): real
    requires 0 <= i < |gam| && 0 <= j < |gam|
  {
    if i == j then gam[0] else PearlEntry(gam, Lag(i, j))
  }

  /** The circulant matrix C as rows. It is symmetric and has gam[0] on
      the diagonal. */
  function CirculantMatrix(gam: seq<real>): (C: seq<seq<real>>)
    requires |gam| >= 1
    ensures Rectangular(C) && Shape(C, |gam|, |gam|)
    ensures forall i, j :: 0 <= i < |gam| && 0 <= j < |gam| ==> C[i][j] == CirculantEntry(gam, i, j)
    ensures forall i, j :: 0 <= i < |gam| && 0 <= j < |gam| ==> C[i][j] == C[j][i]
    ensures forall i :: 0 <= i < |gam| ==> C[i][i] == gam[0]
  {
    var L := |gam|;
    seq(L, i requires 0 <= i < L => seq(L, j requires 0 <= j < L => CirculantEntry(gam, i, j)))
  }

  /** The first row of C: gam[0], then Pearl's entry for lags 1..L-1. */
  function CirculantGenerator(gam: seq<real>): (c: seq<real>)
    requires |gam| >= 1
    ensures |c| == |gam|
  {
    seq(|gam|, d requires 0 <= d < |gam| => if d == 0 then gam[0] else PearlEntry(gam, d))
  }

  /** C is circulant: entry (i, j) depends only on (j - i) mod L, every row
      being the generator rotated i places to the right. */
  lemma CirculantRotation(gam: seq<real>, i: int, j: int)
    requires 0 <= i < |gam| && 0 <= j < |gam|
    ensures CirculantMatrix(gam)[i][j] == CirculantGenerator(gam)[(j - i) % |gam|]
  {
    var L := |gam|;
    var g := CirculantGenerator(gam);
    assert CirculantMatrix(gam)[i][j] == CirculantEntry(gam, i, j);
    if j < i {
      var d := i - j;
      ModOfNegative(j - i, L);
      PearlSymmetric(gam, d);
      assert g[L - d] == PearlEntry(gam, L - d);
    } else {
      ModOfSmall(j - i, L);
      assert g[j - i] == CirculantEntry(gam, i, j);
    }
  }

  /** Euclidean remainder of a negative number above -L. */
  lemma ModOfNegative(a: int, L: int)
    requires -L < a < 0
    ensures a % L == a + L
  {
    var q, r := a / L, a % L;
    assert a == L * q + r;
    if q >= 0 {
      ProductNonNegative(L, q);
      assert false;
    }
    if q <= -2 {
      ProductNonNegative(L, -2 - q);
      assert false;
    }
  }

  /** Euclidean remainder of a number already in [0, L). */
  lemma ModOfSmall(a: int, L: int)
    requires 0 <= a < L
    ensures a % L == a
  {
    var q, r := a / L, a % L;
    assert a == L * q + r;
    if q >= 1 {
      ProductNonNegative(L, q - 1);
      assert false;
    }
    if q <= -1 {
      ProductNonNegative(L, -1 - q);
      assert false;
    }
  }

  lemma ProductNonNegative(x: int, y: int)
    requires x >= 0 && y >= 0
    ensures x * y >= 0
  {
  }


  /** The double loop of pycissa.py:718-726 filling S and C. */
  method CovarianceMatrices(gam: seq<real>) returns (S: array2<real>, C: array2<real>)
    requires |gam| >= 1
    ensures fresh(S) && fresh(C)
    ensures S.Length0 == |gam| && S.Length1 == |gam| && C.Length0 == |gam| && C.Length1 == |gam|
    ensures forall i, j :: 0 <= i < |gam| && 0 <= j < |gam| ==> S[i, j] == ToeplitzEntry(gam, i, j)
    ensures forall i, j :: 0 <= i < |gam| && 0 <= j < |gam| ==> C[i, j] == CirculantEntry(gam, i, j)
  {
    var L := |gam|;
    S := new real[L, L]((i, j) => if i == j then gam[0] else 0.0);
    C := new real[L, L]((i, j) => if i == j then gam[0] else 0.0);
    for i := 0 to L
      invariant forall a, b :: 0 <= a < L && 0 <= b < L && (a < i || b < i) ==>
        S[a, b] == ToeplitzEntry(gam, a, b) && C[a, b] == CirculantEntry(gam, a, b)
      invariant forall a, b :: i <= a < L && i <= b < L ==>
        S[a, b] == (if a == b then gam[0] else 0.0) && C[a, b] == (if a == b then gam[0] else 0.0)
    {
      FillLags(gam, S, C, i);
    }
  }

  /** One pass of the inner loop (pycissa.py:720-726): row and column i of S
      and C beyond the diagonal get their entries; nothing else changes. */
  method FillLags(gam: seq<real>, S: array2<real>, C: array2<real>, i: nat)
    requires S != C && i < |gam|
    requires S.Length0 == |gam| && S.Length1 == |gam| && C.Length0 == |gam| && C.Length1 == |gam|
    modifies S, C
    ensures forall b :: i < b < |gam| ==>
      S[i, b] == ToeplitzEntry(gam, i, b) && C[i, b] == CirculantEntry(gam, i, b) &&
      S[b, i] == ToeplitzEntry(gam, b, i) && C[b, i] == CirculantEntry(gam, b, i)
    ensures forall a, b :: 0 <= a < |gam| && 0 <= b < |gam| && !(a == i && i < b) && !(b == i && i < a) ==>
      S[a, b] == old(S[a, b]) && C[a, b] == old(C[a, b])
  {
    var L := |gam|;
    for j := i + 1 to L
      invariant forall b :: i < b < j ==>
        S[i, b] == ToeplitzEntry(gam, i, b) && C[i, b] == CirculantEntry(gam, i, b) &&
        S[b, i] == ToeplitzEntry(gam, b, i) && C[b, i] == CirculantEntry(gam, b, i)
      invariant forall a, b :: 0 <= a < L && 0 <= b < L && !(a == i && i < b < j) && !(b == i && i < a < j) ==>
        S[a, b] == old(S[a, b]) && C[a, b] == old(C[a, b])
    {
      var k := Lag(i, j);
      S[i, j] := gam[k];
      S[j, i] := S[i, j];
      C[i, j] := (((L - k) as real) / (L as real)) * gam[k] + ((k as real) / (L as real)) * gam[L - k];
      C[j, i] := C[i, j];
    }
  }

  // ---------------------------------------------------------------------
  // Section 4: spectrum and principal components (pycissa.py:756-759)
  // ---------------------------------------------------------------------

  /** u' C u, the k-th diagonal entry of U' C U when u is column k of U. */
  function QuadraticForm(u: seq<real>, C: seq<seq<real>>): real
    requires Shape(C, |u|, |u|)
  {
    Sum(seq(|u|, i requires 0 <= i < |u| => u[i] * Sum(seq(|u|, j requires 0 <= j < |u| => C[i][j] * u[j]))))
  }

  /** psd = |diag(U' C U)|: one non-negative value per basis vector. */
  function Psd(U: seq<seq<real>>, C: seq<seq<real>>): (psd: seq<real>)
    requires Shape(U, |U|, |U|) && Shape(C, |U|, |U|)
    ensures |psd| == |U|
    ensures forall k :: 0 <= k < |U| ==> psd[k] >= 0.0 && psd[k] == Abs(QuadraticForm(ColumnOf(U, k), C))
  {
    seq(|U|, k requires 0 <= k < |U| => Abs(QuadraticForm(ColumnOf(U, k), C)))
  }

  /** W = U' X: W[k][n] is the sum over i of U[i][k] X[i][n]. */
  function PrincipalComponents(U: seq<seq<real>>, X: seq<seq<real>>): (W: seq<seq<real>>)
    requires Shape(U, |U|, |U|) && |U| >= 1 && Rectangular(X) && |X| == |U|
    ensures Rectangular(W) && Shape(W, |U|, |X[0]|)
    ensures forall k, n :: 0 <= k < |U| && 0 <= n < |X[0]| ==>
      W[k][n] == Sum(seq(|U|, i requires 0 <= i < |U| => U[i][k] * X[i][n]))
  {
    seq(|U|, k requires 0 <= k < |U| =>
      seq(|X[0]|, n requires 0 <= n < |X[0]| => Sum(seq(|U|, i requires 0 <= i < |U| => U[i][k] * X[i][n]))))
  }

  // ---------------------------------------------------------------------
  // Section 5: elementary reconstructions (pycissa.py:769-774)
  // ---------------------------------------------------------------------

  /** `np.matmul(U[:,[k]], W[[k],:])`: the rank-one matrix u w'. */
  function Outer(u: seq<real>, w: seq<real>): (Y: seq<seq<real>>)
    requires |u| >= 1 && |w| >= 1
    ensures Rectangular(Y) && Shape(Y, |u|, |w|)
    ensures forall i, n :: 0 <= i < |u| && 0 <= n < |w| ==> Y[i][n] == u[i] * w[n]
  {
    seq(|u|, i requires 0 <= i < |u| => seq(|w|, n requires 0 <= n < |w| => u[i] * w[n]))
  }

  /** R[:, k], the diagonal average of (column k of U) times (row k of W). */
  function ElementaryReconstruction(U: seq<seq<real>>, W: seq<seq<real>>, k: int): (r: seq<real>)
    requires Shape(U, |U|, |U|) && Rectangular(W) && |W| == |U| && 0 <= k < |U|
    ensures |r| == |U| + |W[0]| - 1
  {
    Diagaver(Outer(ColumnOf(U, k), W[k]))
  }

  /** All L elementary reconstructions, as columns. */
  function ElementaryReconstructions(U: seq<seq<real>>, W: seq<seq<real>>): (R: seq<seq<real>>)
    requires Shape(U, |U|, |U|) && Rectangular(W) && |W| == |U|
    ensures Shape(R, |U|, |U| + |W[0]| - 1)
    ensures forall k :: 0 <= k < |U| ==> R[k] == ElementaryReconstruction(U, W, k)
  {
    seq(|U|, k requires 0 <= k < |U| => ElementaryReconstruction(U, W, k))
  }

  /** The reconstruction loop: column k from the pooled or the single-thread
      diagonal averager, as the flag selects; both give the same column. */
  method ElementarySeries(U: seq<seq<real>>, W: seq<seq<real>>, multiThread: bool) returns (R: seq<seq<real>>)
    requires Shape(U, |U|, |U|) && Rectangular(W) && |W| == |U|
    ensures R == ElementaryReconstructions(U, W)
  {
    var L := |U|;
    var cols := new seq<real>[L](_ => Zeros(L + |W[0]| - 1));
    for k := 0 to L
      invariant forall j :: 0 <= j < k ==> cols[j] == ElementaryReconstruction(U, W, j)
    {
      var Y := Outer(ColumnOf(U, k), W[k]);
      var y;
      if multiThread {
        y := Diagaver(Y);
      } else {
        y := DiagaverSingleThread(Y);
      }
      cols[k] := y;
    }
    R := cols[..];
  }

  // ---------------------------------------------------------------------
  // Section 6: grouping by frequency and trimming (pycissa.py:782-791)
  // ---------------------------------------------------------------------

  function AddColumns(a: seq<real>, b: seq<real>): (c: seq<real>)
    requires |a| == |b|
    ensures |c| == |a| && forall t :: 0 <= t < |a| ==> c[t] == a[t] + b[t]
  {
    seq(|a|, t requires 0 <= t < |a| => a[t] + b[t])
  }

  /** Column f of Z before trimming: R[0] alone, R[f] + R[L-f] for the pairs,
      and the middle column R[L/2] alone when L is even. */
  function PairedColumn(R: seq<seq<real>>, f: int): (z: seq<real>)
    requires |R| >= 1 && Shape(R, |R|, |R[0]|) && 0 <= f < NumFrequencies(|R|)
    ensures |z| == |R[0]|
  {
    FrequencyCount(|R|);
    if f == 0 then R[0]
    else if f <= NumPairs(|R|) then AddColumns(R[f], R[|R| - f])
    else R[f]
  }

  function Paired(R: seq<seq<real>>): (Z: seq<seq<real>>)
    requires |R| >= 1 && Shape(R, |R|, |R[0]|)
    ensures Shape(Z, |R| / 2 + 1, |R[0]|)
    ensures forall f :: 0 <= f < |Z| ==> Z[f] == PairedColumn(R, f)
  {
    FrequencyCount(|R|);
    seq(NumFrequencies(|R|), f requires 0 <= f < NumFrequencies(|R|) => PairedColumn(R, f))
  }

  /** The pairing loop (pycissa.py:782-788). */
  method PairByFrequency(R: seq<seq<real>>) returns (Z: seq<seq<real>>)
    requires |R| >= 1 && Shape(R, |R|, |R[0]|)
    ensures Z == Paired(R)
  {
    var L := |R|;
    FrequencyCount(L);
    var nf2 := NumPairs(L);
    var nft := NumFrequencies(L);
    var cols := new seq<real>[nft](_ => Zeros(|R[0]|));
    cols[0] := R[0];
    for k := 1 to nf2 + 1
      invariant cols[0] == R[0]
      invariant forall f :: 1 <= f < k ==> cols[f] == AddColumns(R[f], R[L - f])
    {
      cols[k] := AddColumns(R[k], R[L - k]);
    }
    if L % 2 == 0 {
      cols[nft - 1] := R[nft - 1];
    }
    Z := cols[..];
  }

  /** Row t of a matrix stored as a sequence of columns. */
  function RowOf(Z: seq<seq<real>>, t: int): (row: seq<real>)
    requires 0 <= t && forall f :: 0 <= f < |Z| ==> t < |Z[f]|
    ensures |row| == |Z| && forall f :: 0 <= f < |Z| ==> row[f] == Z[f][t]
  {
    seq(|Z|, f requires 0 <= f < |Z| => Z[f][t])
  }

  /** Summing a row of Z gives the same as summing that row of R: every
      elementary reconstruction is used exactly once. */
  lemma PairingRowSums(R: seq<seq<real>>, t: int)
    requires |R| >= 1 && Shape(R, |R|, |R[0]|) && 0 <= t < |R[0]|
    ensures Sum(RowOf(Paired(R), t)) == Sum(RowOf(R, t))
  {
    var L := |R|;
    FrequencyCount(L);
    var nf2 := NumPairs(L);
    var Z := Paired(R);
    var a := RowOf(R, t);
    var p := RowOf(Z, t);
    forall f | 1 <= f <= nf2
      ensures p[f] == a[f] + a[L - f]
    {
      assert Z[f] == AddColumns(R[f], R[L - f]);
    }
    assert p[0] == a[0] by {
      assert Z[0] == R[0];
    }
    if L % 2 == 0 {
      assert Z[nf2 + 1] == R[nf2 + 1];
    }
    PairedSum(a, p);
  }

  /** Folding a into p (a[0] alone, a[f] + a[L-f] for the pairs, the middle
      entry alone for even L) keeps the total. */
  lemma PairedSum(a: seq<real>, p: seq<real>)
    requires |a| >= 1 && |p| == |a| / 2 + 1
    requires p[0] == a[0]
    requires forall f {:trigger p[f]} :: 1 <= f <= (|a| - 1) / 2 ==> p[f] == a[f] + a[|a| - f]
    requires |a| % 2 == 0 ==> p[|a| / 2] == a[|a| / 2]
    ensures Sum(p) == Sum(a)
  {
    var nf2 := (|a| - 1) / 2;
    HalfCounts(|a|);
    PairedPrefix(a, p, nf2, nf2);
    if |a| % 2 == 1 {
      PairedSumOdd(a, p, nf2);
    } else {
      PairedSumEven(a, p, nf2);
    }
  }

  /** L / 2 and (L - 1) / 2 for odd and even L. */
  lemma HalfCounts(L: int)
    requires L >= 1
    ensures L % 2 == 1 ==> L == 2 * ((L - 1) / 2) + 1 && L / 2 == (L - 1) / 2
    ensures L % 2 == 0 ==> L == 2 * ((L - 1) / 2) + 2 && L / 2 == (L - 1) / 2 + 1
  {
  }

  lemma PairedSumOdd(a: seq<real>, p: seq<real>, nf2: nat)
    requires |a| == 2 * nf2 + 1 && |p| == nf2 + 1
    requires Sum(a[..nf2 + 1]) + Sum(a[|a| - nf2..]) == Sum(p[..nf2 + 1])
    ensures Sum(p) == Sum(a)
  {
    var lo, hi := a[..nf2 + 1], a[nf2 + 1..];
    assert lo + hi == a;
    assert p[..nf2 + 1] == p;
    SumAppend(lo, hi);
  }

  lemma PairedSumEven(a: seq<real>, p: seq<real>, nf2: nat)
    requires |a| == 2 * nf2 + 2 && |p| == nf2 + 2
    requires p[nf2 + 1] == a[nf2 + 1]
    requires Sum(a[..nf2 + 1]) + Sum(a[|a| - nf2..]) == Sum(p[..nf2 + 1])
    ensures Sum(p) == Sum(a)
  {
    var lo, hi := a[..nf2 + 1], a[nf2 + 2..];
    var mid := a[nf2 + 1];
    assert [mid] + hi == a[nf2 + 1..];
    assert lo + ([mid] + hi) == a;
    SumAppend(lo, [mid] + hi);
    SumCons(mid, hi);
    assert p[..|p| - 1] == p[..nf2 + 1];
  }

  /** The pairs 0..m of p account for a[0..m] and a[L-m..L-1]. */
  lemma {:induction false} PairedPrefix(a: seq<real>, p: seq<real>, nf2: int, m: int)
    requires 0 <= m <= nf2 && 1 + 2 * nf2 <= |a| && nf2 < |p|
    requires p[0] == a[0]
    requires forall f {:trigger p[f]} :: 1 <= f <= nf2 ==> p[f] == a[f] + a[|a| - f]
    ensures Sum(a[..m + 1]) + Sum(a[|a| - m..]) == Sum(p[..m + 1])
  {
    var L := |a|;
    if m == 0 {
      assert a[L..] == [];
      assert a[..1] == [a[0]] && p[..1] == [p[0]];
    } else {
      PairedPrefix(a, p, nf2, m - 1);
      var lo, lo1 := a[..m], a[..m + 1];
      assert lo1[..m] == lo;
      assert Sum(lo1) == Sum(lo) + a[m];
      var hi, hi1 := a[L - m + 1..], a[L - m..];
      assert hi1 == [a[L - m]] + hi;
      SumCons(a[L - m], hi);
      var q, q1 := p[..m], p[..m + 1];
      assert q1[..m] == q;
      assert Sum(q1) == Sum(q) + p[m];
      assert p[m] == a[m] + a[L - m];
    }
  }

  /** `Z[H : rows-H, :]`: drop the extension from both ends of every column. */
  function Trimmed(Z: seq<seq<real>>, H: int): (Zt: seq<seq<real>>)
    requires H >= 0 && forall f :: 0 <= f < |Z| ==> |Z[f]| >= 2 * H
    ensures |Zt| == |Z|
    ensures forall f :: 0 <= f < |Z| ==> |Zt[f]| == |Z[f]| - 2 * H
    ensures forall f, t :: 0 <= f < |Z| && 0 <= t < |Z[f]| - 2 * H ==> Zt[f][t] == Z[f][t + H]
  {
    seq(|Z|, f requires 0 <= f < |Z| => Z[f][H..|Z[f]| - H])
  }

  // ---------------------------------------------------------------------
  // Section 7: the whole decomposition
  // ---------------------------------------------------------------------

  datatype Decomposition = Decomposition(Z: seq<seq<real>>, psd: seq<real>)

  /** The extended series, kept as a function of the series and the
      extension length. */
  function Extended(x: seq<real>, h: int, ar: (seq<real>, int) -> seq<real>): (xe: seq<real>)
    requires h >= 0 && ArExtensionShape(ar)
    ensures |xe| == |x| + 2 * h && xe[h..h + |x|] == x
  {
    ExtendKeepsSeries(x, h, ar);
    Extend(ColumnVector(x), PyInt(h), ar).value
  }

  /** The frequency components of a series already extended by h values
      on each side: embed, project, reconstruct, pair, trim. */
  function ExtendedComponents(xe: seq<real>, L: int, h: int, U: seq<seq<real>>): (Z: seq<seq<real>>)
    requires 1 <= L && h >= 0 && L <= |xe| - 2 * h && Shape(U, L, L)
    ensures Shape(Z, L / 2 + 1, |xe| - 2 * h)
  {
    var W := PrincipalComponents(U, Trajectory(xe, L));
    Trimmed(Paired(ElementaryReconstructions(U, W)), h)
  }

  /** The frequency components Z (T rows, one column per frequency). */
  function Components(x: seq<real>, L: int, h: int, U: seq<seq<real>>, ar: (seq<real>, int) -> seq<real>): (Z: seq<seq<real>>)
    requires 1 <= L <= |x| && h >= 0 && Shape(U, L, L) && ArExtensionShape(ar)
    ensures Shape(Z, L / 2 + 1, |x|)
  {
    ExtendedComponents(Extended(x, h, ar), L, h, U)
  }

  /** The estimated power spectral density. */
  function Spectrum(x: seq<real>, L: int, U: seq<seq<real>>): (psd: seq<real>)
    requires 1 <= L <= |x| && Shape(U, L, L)
    ensures |psd| == L && forall k :: 0 <= k < L ==> psd[k] >= 0.0
  {
    Psd(U, CirculantMatrix(Gam(x, L)))
  }

  /** What `cissa` returns for a series given as a column: the window check
      (L > T - L + 1 is a ValueError), a window below 1 failing inside numpy,
      and otherwise the components of the series extended by the mode's
      length and the spectrum. */
  function CissaOf(x: seq<real>, L: int, H: int, U: seq<seq<real>>, ar: (seq<real>, int) -> seq<real>):
    (r: Result<Decomposition>)
    requires ArExtensionShape(ar) && (L >= 1 ==> Shape(U, L, L))
    ensures r == Err(ValueError) <==> L > |x| - L + 1
    ensures r.Ok? <==> 1 <= L && 2 * L <= |x| + 1
    ensures r.Ok? ==> (Shape(r.value.Z, L / 2 + 1, |x|) &&
      |r.value.psd| == L && forall k :: 0 <= k < L ==> r.value.psd[k] >= 0.0)
  {
    if L > |x| - L + 1 then Err(ValueError)
    else if L < 1 then Err(LibraryError)
    else Ok(Decomposition(Components(x, L, ExtensionAmount(H, |x|, L), U, ar), Spectrum(x, L, U)))
  }

  /** `cissa(x, L, H, multi_thread_run)`. L and H must be Python ints
      (anything else, a bool or a numpy integer included, makes the code raise
      a str, which Python reports as a TypeError; H is checked first). U is
      the real orthonormal basis the code derives from `dft(L)`, ar the
      autoregressive extension. */
  method Cissa(x: NdArray, Lp: PyArg, Hp: PyArg, U: seq<seq<real>>, ar: (seq<real>, int) -> seq<real>,
               multiThread: bool)
    returns (r: Result<Decomposition>)
    requires x.WellFormed() && ArExtensionShape(ar)
    requires Lp.PyInt? && Lp.i >= 1 ==> Shape(U, Lp.i, Lp.i)
    ensures !Hp.PyInt? || !Lp.PyInt? ==> r == Err(TypeError)
    ensures Hp.PyInt? && Lp.PyInt? ==> var T, L := AsColumn(x).rows, Lp.i;
      r.Err? <==> L > T - L + 1 || AsColumn(x).cols != 1 || L < 1
    ensures Hp.PyInt? && Lp.PyInt? ==> var T, L := AsColumn(x).rows, Lp.i;
      L > T - L + 1 ==> r == Err(ValueError)
    ensures Hp.PyInt? && Lp.PyInt? ==> var T, L := AsColumn(x).rows, Lp.i;
      L <= T - L + 1 && AsColumn(x).cols != 1 ==> r == Err(ValueError)
    ensures Hp.PyInt? && Lp.PyInt? ==> var T, L := AsColumn(x).rows, Lp.i;
      L <= T - L + 1 && AsColumn(x).cols == 1 && L < 1 ==> r == Err(LibraryError)
    ensures r.Ok? ==> Hp.PyInt? && Lp.PyInt? && var xc, L := AsColumn(x).ColumnValues(), Lp.i;
      1 <= L <= |xc| &&
      r.value.Z == Components(xc, L, ExtensionAmount(Hp.i, |xc|, L), U, ar) &&
      r.value.psd == Spectrum(xc, L, U)
    ensures Hp.PyInt? && Lp.PyInt? && AsColumn(x).cols == 1 ==>
      r == CissaOf(AsColumn(x).ColumnValues(), Lp.i, Hp.i, U, ar)
    ensures r.Ok? ==> var L := Lp.i;
      Shape(r.value.Z, L / 2 + 1, AsColumn(x).rows) &&
      |r.value.psd| == L && forall k :: 0 <= k < L ==> r.value.psd[k] >= 0.0
  {
    if !Hp.PyInt? || !Lp.PyInt? {
      return Err(TypeError);
    }
    var L, H := Lp.i, Hp.i;
    var xc := AsColumn(x);
    var T := xc.rows;
    var N := T - L + 1;
    if L > N {
      return Err(ValueError);
    }
    var h := ExtensionAmount(H, T, L);
    if xc.cols != 1 {
      // extend rejects anything but a single column
      return Err(ValueError);
    }
    if L < 1 {
      // L = 0 indexes gam[0] of an empty array, L < 0 asks numpy for a
      // negative dimension
      return Err(LibraryError);
    }
    var series := xc.ColumnValues();
    var xe := Extended(series, h, ar);
    var X := Trajectory(xe, L);
    var gam := Gam(series, L);
    var S, C := CovarianceMatrices(gam);
    var Cm := seq(L, i requires 0 <= i < L reads C => seq(L, j requires 0 <= j < L reads C => C[i, j]));
    ghost var Cg := CirculantMatrix(gam);
    forall i | 0 <= i < L
      ensures Cm[i] == Cg[i]
    {
      assert forall j :: 0 <= j < L ==> Cm[i][j] == C[i, j] == Cg[i][j];
    }
    assert Cm == Cg;
    var psd := Psd(U, Cm);
    var W := PrincipalComponents(U, X);
    var R := ElementarySeries(U, W, multiThread);
    var Z := PairByFrequency(R);
    Z := Trimmed(Z, h);
    return Ok(Decomposition(Z, psd));
  }
}
