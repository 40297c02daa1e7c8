/** Why the decomposition is one: with an orthonormal basis U (U U' = I, as
    the real basis derived from `dft(L)` in CiSSA/pycissa.py:732-750 is), the
    frequency components Z returned by `cissa` add up, row by row, to the
    original series. This is the property the grouping step relies on when it
    sums columns of Z into trend, cycle, seasonality and noise. */
module Completeness {
  import opened Common
  import opened DiagonalAverager
  import opened SeriesExtender
  import opened Decomposer

  /** The products U[i][k] U[j][k], k = 0..L-1. */
  function RowProducts(U: seq<seq<real>>, i: int, j: int): (p: seq<real>)
    requires Shape(U, |U|, |U|) && 0 <= i < |U| && 0 <= j < |U|
    ensures |p| == |U| && forall k :: 0 <= k < |U| ==> p[k] == U[i][k] * U[j][k]
  {
    seq(|U|, k requires 0 <= k < |U| => U[i][k] * U[j][k])
  }

  /** The dot product of rows i and j of a square matrix. */
  function RowDot(U: seq<seq<real>>, i: int, j: int): real
    requires Shape(U, |U|, |U|) && 0 <= i < |U| && 0 <= j < |U|
  {
    Sum(RowProducts(U, i, j))
  }

  /** U U' = I. */
  predicate Orthonormal(U: seq<seq<real>>)
  {
    Shape(U, |U|, |U|) &&
    forall i, j :: 0 <= i < |U| && 0 <= j < |U| ==> RowDot(U, i, j) == if i == j then 1.0 else 0.0
  }

  /** The terms U[m][k] W[k][c], k = 0..L-1. */
  function Projection(U: seq<seq<real>>, W: seq<seq<real>>, m: int, c: int): (p: seq<real>)
    requires Shape(U, |U|, |U|) && Rectangular(W) && |W| == |U| && 0 <= m < |U| && 0 <= c < |W[0]|
    ensures |p| == |U| && forall k :: 0 <= k < |U| ==> p[k] == U[m][k] * W[k][c]
  {
    seq(|U|, k requires 0 <= k < |U| => U[m][k] * W[k][c])
  }

  /** The L x L matrix of terms U[m][k] U[j][k] X[j][c] (row k, column j). */
  function ProjectionTerms(U: seq<seq<real>>, X: seq<seq<real>>, m: int, c: int): (P: seq<seq<real>>)
    requires Shape(U, |U|, |U|) && Rectangular(X) && |X| == |U| && 0 <= m < |U| && 0 <= c < |X[0]|
    ensures Shape(P, |U|, |U|)
    ensures forall k, j :: 0 <= k < |U| && 0 <= j < |U| ==> P[k][j] == U[m][k] * (U[j][k] * X[j][c])
  {
    seq(|U|, k requires 0 <= k < |U| => seq(|U|, j requires 0 <= j < |U| => U[m][k] * (U[j][k] * X[j][c])))
  }

  lemma Rearrange(a: real, b: real, z: real)
    ensures a * (b * z) == z * (a * b)
  {
  }

  /** Column j of the projection terms is X[j][c] times the products of
      rows m and j of U, so it sums to X[j][c] times their sum. */
  lemma ProjectionColumnTerms(U: seq<seq<real>>, X: seq<seq<real>>, m: int, c: int, j: int)
    requires Shape(U, |U|, |U|) && Rectangular(X) && |X| == |U| && 0 <= m < |U| && 0 <= c < |X[0]|
    requires 0 <= j < |U|
    ensures Sum(ColumnOf(ProjectionTerms(U, X, m, c), j)) == X[j][c] * Sum(RowProducts(U, m, j))
  {
    var col := ColumnOf(ProjectionTerms(U, X, m, c), j);
    var rp := RowProducts(U, m, j);
    forall k | 0 <= k < |U|
      ensures col[k] == X[j][c] * rp[k]
    {
      Rearrange(U[m][k], U[j][k], X[j][c]);
    }
    SumScale(rp, col, X[j][c]);
  }

  /** Column j of the projection terms sums to X[j][c] times the dot product
      of rows m and j of U. */
  lemma ProjectionColumn(U: seq<seq<real>>, X: seq<seq<real>>, m: int, c: int, j: int)
    requires Shape(U, |U|, |U|) && Rectangular(X) && |X| == |U| && 0 <= m < |U| && 0 <= c < |X[0]|
    requires 0 <= j < |U|
    ensures ColumnSums(ProjectionTerms(U, X, m, c), |U|)[j] == X[j][c] * RowDot(U, m, j)
  {
    ProjectionColumnTerms(U, X, m, c, j);
  }

  /** Projecting on the basis and back gives the trajectory matrix again:
      the sum over k of U[m][k] W[k][c] is X[m][c]. */
  lemma ProjectBack(U: seq<seq<real>>, X: seq<seq<real>>, W: seq<seq<real>>, m: int, c: int)
    requires Orthonormal(U) && |U| >= 1 && Rectangular(X) && |X| == |U|
    requires W == PrincipalComponents(U, X)
    requires 0 <= m < |U| && 0 <= c < |X[0]|
    ensures Sum(Projection(U, W, m, c)) == X[m][c]
  {
    var L := |U|;
    var P := ProjectionTerms(U, X, m, c);
    var lhs := Projection(U, W, m, c);
    forall k | 0 <= k < L
      ensures lhs[k] == RowSums(P)[k]
    {
      SumScale(seq(L, i requires 0 <= i < L => U[i][k] * X[i][c]), P[k], U[m][k]);
    }
    assert lhs == RowSums(P);
    SumSwap(P, L);
    var cs := ColumnSums(P, L);
    forall j | 0 <= j < L
      ensures cs[j] == if j == m then X[m][c] else 0.0
    {
      ProjectionColumn(U, X, m, c, j);
    }
    SumIndicator(cs, m);
  }

  lemma CancelFactor(n: real, a: real, b: real)
    requires n != 0.0 && n * a == n * b
    ensures a == b
  {
  }

  /** nsum times the i-th term of each rank-one matrix's anti-diagonal is
      its projection term. */
  lemma AntiDiagonalColumnAt(U: seq<seq<real>>, W: seq<seq<real>>, t1: int, jInf: int, jSup: int, i: int, k: int,
                             m: int, c: int, n: real)
    requires Shape(U, |U|, |U|) && Rectangular(W) && |W| == |U|
    requires 1 <= jInf <= jSup <= |U| && 0 <= t1 - jSup && t1 - jInf < |W[0]|
    requires 0 <= i < jSup - jInf + 1 && 0 <= k < |U|
    requires m == jInf + i - 1 && c == t1 - (jInf + i) && n == (jSup - jInf + 1) as real
    ensures Projection(U, W, m, c)[k] == n * ColumnOf(AntiDiagonals(U, W, t1, jInf, jSup), i)[k]
  {
    MulDivCancel(n, U[m][k] * W[k][c]);
  }

  /** The summed projection at entry i of the anti-diagonal at t1, that is,
      at row jInf + i - 1 and column t1 - (jInf + i) of the trajectory matrix. */
  function DiagonalProjection(U: seq<seq<real>>, W: seq<seq<real>>, t1: int, jInf: int, i: int): real
    requires Shape(U, |U|, |U|) && Rectangular(W) && |W| == |U|
    requires 0 <= jInf + i - 1 < |U| && 0 <= t1 - (jInf + i) < |W[0]|
  {
    Sum(Projection(U, W, jInf + i - 1, t1 - (jInf + i)))
  }

  /** nsum times entry i of every rank-one matrix's anti-diagonal is the
      matching projection term, for all basis vectors at once. */
  lemma AntiDiagonalColumnTerms(U: seq<seq<real>>, W: seq<seq<real>>, t1: int, jInf: int, jSup: int, i: int, n: real)
    requires Shape(U, |U|, |U|) && Rectangular(W) && |W| == |U|
    requires 1 <= jInf <= jSup <= |U| && 0 <= t1 - jSup && t1 - jInf < |W[0]|
    requires 0 <= i < jSup - jInf + 1 && n == (jSup - jInf + 1) as real
    ensures forall k :: 0 <= k < |U| ==>
      Projection(U, W, jInf + i - 1, t1 - (jInf + i))[k] == n * ColumnOf(AntiDiagonals(U, W, t1, jInf, jSup), i)[k]
  {
    forall k | 0 <= k < |U|
      ensures Projection(U, W, jInf + i - 1, t1 - (jInf + i))[k] == n * ColumnOf(AntiDiagonals(U, W, t1, jInf, jSup), i)[k]
    {
      AntiDiagonalColumnAt(U, W, t1, jInf, jSup, i, k, jInf + i - 1, t1 - (jInf + i), n);
    }
  }

  /** nsum times entry i of the anti-diagonals, summed over the basis, is
      the summed projection at that entry. */
  lemma AntiDiagonalColumnScaled(U: seq<seq<real>>, W: seq<seq<real>>, t1: int, jInf: int, jSup: int, i: int, n: real)
    requires Shape(U, |U|, |U|) && Rectangular(W) && |W| == |U|
    requires 1 <= jInf <= jSup <= |U| && 0 <= t1 - jSup && t1 - jInf < |W[0]|
    requires 0 <= i < jSup - jInf + 1 && n == (jSup - jInf + 1) as real
    ensures n * Sum(ColumnOf(AntiDiagonals(U, W, t1, jInf, jSup), i)) == DiagonalProjection(U, W, t1, jInf, i)
  {
    var col := ColumnOf(AntiDiagonals(U, W, t1, jInf, jSup), i);
    var p := Projection(U, W, jInf + i - 1, t1 - (jInf + i));
    AntiDiagonalColumnTerms(U, W, t1, jInf, jSup, i, n);
    SumScale(col, p, n);
    assert DiagonalProjection(U, W, t1, jInf, i) == Sum(p);
  }

  /** n values each equal to v / n add up to v. */
  lemma UniformSum(cs: seq<real>, v: real)
    requires |cs| >= 1
    requires forall i :: 0 <= i < |cs| ==> (|cs| as real) * cs[i] == v
    ensures Sum(cs) == v
  {
    forall i | 0 <= i < |cs|
      ensures cs[i] == cs[0]
    {
      UniformEntry(cs, v, i);
    }
    SumConstant(cs, cs[0]);
  }

  lemma UniformEntry(cs: seq<real>, v: real, i: int)
    requires |cs| >= 1 && 0 <= i < |cs|
    requires forall i :: 0 <= i < |cs| ==> (|cs| as real) * cs[i] == v
    ensures cs[i] == cs[0]
  {
    var n := |cs| as real;
    assert n * cs[i] == v && n * cs[0] == v;
    CancelFactor(n, cs[i], cs[0]);
  }

  /** Term i of the anti-diagonal at t1 of the k-th rank-one matrix. */
  function AntiDiagonalEntry(U: seq<seq<real>>, W: seq<seq<real>>, t1: int, jInf: int, jSup: int, k: int, i: int): real
    requires Shape(U, |U|, |U|) && Rectangular(W) && |W| == |U|
    requires 1 <= jInf <= jSup <= |U| && 0 <= t1 - jSup && t1 - jInf < |W[0]|
    requires 0 <= k < |U| && 0 <= i < jSup - jInf + 1
  {
    U[jInf + i - 1][k] * W[k][t1 - (jInf + i)] / ((jSup - jInf + 1) as real)
  }

  /** The anti-diagonals at t1 of the L rank-one matrices, one row per basis
      vector. */
  function AntiDiagonals(U: seq<seq<real>>, W: seq<seq<real>>, t1: int, jInf: int, jSup: int): (M: seq<seq<real>>)
    requires Shape(U, |U|, |U|) && Rectangular(W) && |W| == |U|
    requires 1 <= jInf <= jSup <= |U| && 0 <= t1 - jSup && t1 - jInf < |W[0]|
    ensures Shape(M, |U|, jSup - jInf + 1)
    ensures forall k, i :: 0 <= k < |U| && 0 <= i < jSup - jInf + 1 ==> M[k][i] == AntiDiagonalEntry(U, W, t1, jInf, jSup, k, i)
  {
    seq(|U|, k requires 0 <= k < |U| =>
      seq(jSup - jInf + 1, i requires 0 <= i < jSup - jInf + 1 => AntiDiagonalEntry(U, W, t1, jInf, jSup, k, i)))
  }

  /** Row k of the anti-diagonals is the anti-diagonal of the k-th rank-one
      matrix, as the diagonal averaging takes it. */
  lemma AntiDiagonalsRow(U: seq<seq<real>>, W: seq<seq<real>>, t1: int, jInf: int, jSup: int, k: int)
    requires Shape(U, |U|, |U|) && Rectangular(W) && |W| == |U|
    requires 1 <= jInf <= jSup <= |U| && 0 <= t1 - jSup && t1 - jInf < |W[0]|
    requires 0 <= k < |U|
    ensures AntiDiagonals(U, W, t1, jInf, jSup)[k] == AntiDiagonalTerms(Outer(ColumnOf(U, k), W[k]), t1, jInf, jSup)
  {
    var Y := Outer(ColumnOf(U, k), W[k]);
    var M := AntiDiagonals(U, W, t1, jInf, jSup);
    var terms := AntiDiagonalTerms(Y, t1, jInf, jSup);
    forall i | 0 <= i < jSup - jInf + 1
      ensures M[k][i] == terms[i]
    {
      AntiDiagonalEntryAt(U, W, t1, jInf, jSup, k, i);
    }
  }

  lemma AntiDiagonalEntryAt(U: seq<seq<real>>, W: seq<seq<real>>, t1: int, jInf: int, jSup: int, k: int, i: int)
    requires Shape(U, |U|, |U|) && Rectangular(W) && |W| == |U|
    requires 1 <= jInf <= jSup <= |U| && 0 <= t1 - jSup && t1 - jInf < |W[0]|
    requires 0 <= k < |U| && 0 <= i < jSup - jInf + 1
    ensures AntiDiagonalEntry(U, W, t1, jInf, jSup, k, i) == AntiDiagonalTerms(Outer(ColumnOf(U, k), W[k]), t1, jInf, jSup)[i]
  {
    var Y := Outer(ColumnOf(U, k), W[k]);
    var a, b := jInf + i - 1, t1 - (jInf + i);
    AntiDiagonalTermAt(Y, t1, jInf, jSup, jInf + i);
    assert Y[a][b] == U[a][k] * W[k][b];
  }

  /** A matrix whose n columns each sum to v / n has total v. */
  lemma UniformColumns(M: seq<seq<real>>, n: nat, v: real)
    requires n >= 1 && forall k :: 0 <= k < |M| ==> |M[k]| == n
    requires forall i :: 0 <= i < n ==> (n as real) * Sum(ColumnOf(M, i)) == v
    ensures Sum(RowSums(M)) == v
  {
    SumSwap(M, n);
    UniformSum(ColumnSums(M, n), v);
  }

  /** Every column of the anti-diagonals, summed and scaled by nsum, gives v
      when every summed projection along the anti-diagonal does. */
  lemma AntiDiagonalColumnsScaled(U: seq<seq<real>>, W: seq<seq<real>>, t1: int, jInf: int, jSup: int, n: real, v: real)
    requires Shape(U, |U|, |U|) && Rectangular(W) && |W| == |U|
    requires 1 <= jInf <= jSup <= |U| && 0 <= t1 - jSup && t1 - jInf < |W[0]|
    requires n == (jSup - jInf + 1) as real
    requires forall i :: 0 <= i < jSup - jInf + 1 ==> DiagonalProjection(U, W, t1, jInf, i) == v
    ensures forall i :: 0 <= i < jSup - jInf + 1 ==> n * Sum(ColumnOf(AntiDiagonals(U, W, t1, jInf, jSup), i)) == v
  {
    forall i | 0 <= i < jSup - jInf + 1
      ensures n * Sum(ColumnOf(AntiDiagonals(U, W, t1, jInf, jSup), i)) == v
    {
      AntiDiagonalColumnScaled(U, W, t1, jInf, jSup, i, n);
    }
  }

  /** The anti-diagonals add up to v when every summed projection along them
      is v. */
  lemma AntiDiagonalsSum(U: seq<seq<real>>, W: seq<seq<real>>, t1: int, jInf: int, jSup: int, v: real)
    requires Shape(U, |U|, |U|) && Rectangular(W) && |W| == |U|
    requires 1 <= jInf <= jSup <= |U| && 0 <= t1 - jSup && t1 - jInf < |W[0]|
    requires forall i :: 0 <= i < jSup - jInf + 1 ==> DiagonalProjection(U, W, t1, jInf, i) == v
    ensures Sum(RowSums(AntiDiagonals(U, W, t1, jInf, jSup))) == v
  {
    AntiDiagonalColumnsScaled(U, W, t1, jInf, jSup, (jSup - jInf + 1) as real, v);
    UniformColumns(AntiDiagonals(U, W, t1, jInf, jSup), jSup - jInf + 1, v);
  }

  /** Along the anti-diagonal at t1 of the trajectory matrix every summed
      projection is xe[t1 - 1]. */
  lemma ProjectionsOnAntiDiagonal(U: seq<seq<real>>, xe: seq<real>, W: seq<seq<real>>, t1: int, jInf: int, jSup: int)
    requires Orthonormal(U) && |U| >= 1 && 2 * |U| - 1 <= |xe|
    requires W == PrincipalComponents(U, Trajectory(xe, |U|))
    requires 1 <= jInf <= jSup <= |U| && 0 <= t1 - jSup && t1 - jInf < |xe| - |U| + 1
    ensures forall i :: 0 <= i < jSup - jInf + 1 ==> DiagonalProjection(U, W, t1, jInf, i) == xe[t1 - 1]
  {
    forall i | 0 <= i < jSup - jInf + 1
      ensures DiagonalProjection(U, W, t1, jInf, i) == xe[t1 - 1]
    {
      ProjectionOnAntiDiagonal(U, xe, W, t1, jInf + i);
    }
  }

  lemma ProjectionOnAntiDiagonal(U: seq<seq<real>>, xe: seq<real>, W: seq<seq<real>>, t1: int, m: int)
    requires Orthonormal(U) && |U| >= 1 && 2 * |U| - 1 <= |xe|
    requires W == PrincipalComponents(U, Trajectory(xe, |U|))
    requires 1 <= m <= |U| && 0 <= t1 - m < |xe| - |U| + 1
    ensures DiagonalProjection(U, W, t1, m, 0) == xe[t1 - 1]
  {
    var X := Trajectory(xe, |U|);
    ProjectBack(U, X, W, m - 1, t1 - m);
  }

  /** Entry r of the k-th elementary reconstruction sums the r-th
      anti-diagonal of its rank-one matrix. */
  lemma ReconstructionAt(U: seq<seq<real>>, W: seq<seq<real>>, r: int, jInf: int, jSup: int, k: int)
    requires Shape(U, |U|, |U|) && |U| >= 1 && Rectangular(W) && |W| == |U| && |U| <= |W[0]|
    requires 0 <= r < |U| + |W[0]| - 1 && 0 <= k < |U|
    requires (jInf, jSup) == WorkerBounds(r, |W[0]|, |U|, |U| + |W[0]| - 1)
    requires 1 <= jInf <= jSup <= |U| && 0 <= r + 1 - jSup && r + 1 - jInf < |W[0]|
    ensures ElementaryReconstruction(U, W, k)[r] == Sum(AntiDiagonalTerms(Outer(ColumnOf(U, k), W[k]), r + 1, jInf, jSup))
  {
    var Y := Outer(ColumnOf(U, k), W[k]);
    assert Oriented(Y) == Y;
    DiagaverAt(Y, r);
  }

  /** Row r of the elementary reconstructions holds the sums of the
      anti-diagonals at r + 1. */
  lemma ReconstructionRow(U: seq<seq<real>>, W: seq<seq<real>>, R: seq<seq<real>>, r: int, jInf: int, jSup: int)
    requires Shape(U, |U|, |U|) && |U| >= 1 && Rectangular(W) && |W| == |U| && |U| <= |W[0]|
    requires R == ElementaryReconstructions(U, W) && 0 <= r < |U| + |W[0]| - 1
    requires (jInf, jSup) == WorkerBounds(r, |W[0]|, |U|, |U| + |W[0]| - 1)
    requires 1 <= jInf <= jSup <= |U| && 0 <= r + 1 - jSup && r + 1 - jInf < |W[0]|
    ensures RowOf(R, r) == RowSums(AntiDiagonals(U, W, r + 1, jInf, jSup))
  {
    forall k | 0 <= k < |U|
      ensures RowOf(R, r)[k] == RowSums(AntiDiagonals(U, W, r + 1, jInf, jSup))[k]
    {
      ReconstructionAt(U, W, r, jInf, jSup, k);
      AntiDiagonalsRow(U, W, r + 1, jInf, jSup, k);
    }
  }

  /** Row r of the elementary reconstructions adds up to v when every summed
      projection along the anti-diagonal at r + 1 is v. */
  lemma ReconstructionRowSum(U: seq<seq<real>>, W: seq<seq<real>>, R: seq<seq<real>>, r: int, t1: int, jInf: int, jSup: int, v: real)
    requires Shape(U, |U|, |U|) && |U| >= 1 && Rectangular(W) && |W| == |U| && |U| <= |W[0]|
    requires R == ElementaryReconstructions(U, W) && 0 <= r < |U| + |W[0]| - 1
    requires (jInf, jSup) == WorkerBounds(r, |W[0]|, |U|, |U| + |W[0]| - 1)
    requires 1 <= jInf <= jSup <= |U| && 0 <= r + 1 - jSup && r + 1 - jInf < |W[0]|
    requires t1 == r + 1 && forall i :: 0 <= i < jSup - jInf + 1 ==> DiagonalProjection(U, W, t1, jInf, i) == v
    ensures Sum(RowOf(R, r)) == v
  {
    ReconstructionRow(U, W, R, r, jInf, jSup);
    AntiDiagonalsSum(U, W, r + 1, jInf, jSup, v);
  }

  /** The L elementary reconstructions add up to the extended series. */
  lemma ReconstructionsAddUp(U: seq<seq<real>>, xe: seq<real>, R: seq<seq<real>>, r: int)
    requires Orthonormal(U) && |U| >= 1 && 2 * |U| - 1 <= |xe| && 0 <= r < |xe|
    requires R == ElementaryReconstructions(U, PrincipalComponents(U, Trajectory(xe, |U|)))
    ensures Sum(RowOf(R, r)) == xe[r]
  {
    var L := |U|;
    var W := PrincipalComponents(U, Trajectory(xe, L));
    var N, T := |xe| - L + 1, |xe|;
    WorkerBoundsExact(r, N, L, T);
    var (jInf, jSup) := WorkerBounds(r, N, L, T);
    ProjectionsOnAntiDiagonal(U, xe, W, r + 1, jInf, jSup);
    ReconstructionRowSum(U, W, R, r, r + 1, jInf, jSup, xe[r]);
  }

  /** For an orthonormal basis, the components of an extended series add
      up, at every time point kept by the trim, to the series there. */
  lemma ExtendedComponentsAddUp(xe: seq<real>, L: int, h: int, U: seq<seq<real>>, t: int)
    requires 1 <= L && h >= 0 && 2 * L - 1 <= |xe| - 2 * h && |U| == L && Orthonormal(U)
    requires 0 <= t < |xe| - 2 * h
    ensures Sum(RowOf(ExtendedComponents(xe, L, h, U), t)) == xe[t + h]
  {
    var R := ElementaryReconstructions(U, PrincipalComponents(U, Trajectory(xe, L)));
    ExtendedComponentsRow(xe, L, h, U, R, t);
    PairingRowSums(R, t + h);
    ReconstructionsAddUp(U, xe, R, t + h);
  }

  /** Row t of the trimmed components is row t + h of the paired
      reconstructions. */
  lemma ExtendedComponentsRow(xe: seq<real>, L: int, h: int, U: seq<seq<real>>, R: seq<seq<real>>, t: int)
    requires 1 <= L && h >= 0 && 2 * L - 1 <= |xe| - 2 * h && |U| == L && Orthonormal(U)
    requires R == ElementaryReconstructions(U, PrincipalComponents(U, Trajectory(xe, L)))
    requires 0 <= t < |xe| - 2 * h
    ensures RowOf(ExtendedComponents(xe, L, h, U), t) == RowOf(Paired(R), t + h)
  {
    TrimmedRow(Paired(R), h, t);
  }

  /** Row t of the trimmed components is row t + h before the trim. */
  lemma TrimmedRow(Z: seq<seq<real>>, h: int, t: int)
    requires |Z| >= 1 && h >= 0 && Shape(Z, |Z|, |Z[0]|) && 0 <= t < |Z[0]| - 2 * h
    ensures Shape(Trimmed(Z, h), |Z|, |Z[0]| - 2 * h)
    ensures RowOf(Trimmed(Z, h), t) == RowOf(Z, t + h)
  {
  }

  /** Completeness of CiSSA: for an orthonormal basis, summing the frequency
      components at a time point gives back the series there, whatever the
      extension length. */
  lemma ComponentsAddUp(x: seq<real>, L: int, h: int, U: seq<seq<real>>, ar: (seq<real>, int) -> seq<real>, t: int)
    requires 1 <= L && 2 * L - 1 <= |x| && h >= 0 && |U| == L && Orthonormal(U) && ArExtensionShape(ar)
    requires 0 <= t < |x|
    ensures Sum(RowOf(Components(x, L, h, U, ar), t)) == x[t]
  {
    var xe := Extended(x, h, ar);
    ExtendedComponentsAddUp(xe, L, h, U, t);
    assert xe[t + h] == xe[h..h + |x|][t];
  }
}
