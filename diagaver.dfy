/** Diagonal averaging (CiSSA/pycissa.py `diagaver_single_thread`,
    `diagaver_worker` and the pooled `diagaver`).

    A matrix is a sequence of rows. The code turns a wide-or-tall matrix so
    that it has L = min(rows, cols) rows and N = max(rows, cols) columns, and
    output t (1-based, t = 1..T with T = N + L - 1) averages the entries
    Y[m-1][t-m] of the t-th anti-diagonal. */
module DiagonalAverager {
  import opened Common

  /** A matrix with at least one row and one column, all rows equally long. */
  predicate Rectangular(Y: seq<seq<real>>)
  {
    |Y| >= 1 && |Y[0]| >= 1 && forall i :: 0 <= i < |Y| ==> |Y[i]| == |Y[0]|
  }

  function Transpose(Y: seq<seq<real>>): (Yt: seq<seq<real>>)
    requires Rectangular(Y)
    ensures Rectangular(Yt) && |Yt| == |Y[0]| && |Yt[0]| == |Y|
    ensures forall i, j :: 0 <= i < |Y| && 0 <= j < |Y[0]| ==> Yt[j][i] == Y[i][j]
  {
    seq(|Y[0]|, j requires 0 <= j < |Y[0]| => seq(|Y|, i requires 0 <= i < |Y| => Y[i][j]))
  }

  /** The realignment step: transpose when there are more rows than columns
      (pycissa.py:95-99, 171-173). */
  function Oriented(Y: seq<seq<real>>): (Yo: seq<seq<real>>)
    requires Rectangular(Y)
    ensures Rectangular(Yo)
    ensures |Yo| == Min(|Y|, |Y[0]|) && |Yo[0]| == Max(|Y|, |Y[0]|)
  {
    if |Y| > |Y[0]| then Transpose(Y) else Y
  }

  /** What `diagaver` hands to every worker: an L x N matrix with L <= N and
      T = N + L - 1, and a 0-based output position t < T. */
  predicate WorkerInput(t: int, Y: seq<seq<real>>, N: int, L: int, T: int)
  {
    Rectangular(Y) && |Y| == L && |Y[0]| == N && L <= N && T == N + L - 1 && 0 <= t < T
  }

  /** j_inf and j_sup of `diagaver_worker` (pycissa.py:216-224). */
  function WorkerBounds(t: int, N: int, L: int, T: int): (int, int)
  {
    if 1 <= t + 1 && t + 1 <= L - 1 then (1, t + 1)
    else if L <= t + 1 && t + 1 <= N then (1, L)
    else (t + 1 - N + 1, T - N + 1)
  }

  /** The worker's bounds pick out exactly the t-th anti-diagonal: the rows m-1
      with 1 <= m <= L whose column t+1-m lies in 0..N-1, and there are
      min(t+1, L, T-t) of them. */
  lemma WorkerBoundsExact(t: int, N: int, L: int, T: int)
    requires 1 <= L <= N && T == N + L - 1 && 0 <= t < T
    ensures WorkerBounds(t, N, L, T) == (Max(1, t + 2 - N), Min(L, t + 1))
    ensures WorkerBounds(t, N, L, T).1 - WorkerBounds(t, N, L, T).0 + 1 == Min(Min(t + 1, L), T - t)
  {
  }

  /** The nsum terms Y[m-1][t1-m] / nsum for m = jInf..jSup, in the order
      `np.arange(j_inf, j_sup + 1)` lists them. */
  function AntiDiagonalTerms(Y: seq<seq<real>>, t1: int, jInf: int, jSup: int): (terms: seq<real>)
    requires Rectangular(Y) && 1 <= jInf <= jSup <= |Y|
    requires 0 <= t1 - jSup && t1 - jInf < |Y[0]|
    ensures |terms| == jSup - jInf + 1
  {
    var nsum := jSup - jInf + 1;
    seq(nsum, i requires 0 <= i < nsum => Y[jInf + i - 1][t1 - (jInf + i)] / (nsum as real))
  }

  /** `diagaver_worker(t, Y, N, L, T)`: the value of output position t (0-based). */
  function DiagaverWorker(t: int, Y: seq<seq<real>>, N: int, L: int, T: int): real
    requires WorkerInput(t, Y, N, L, T)
  {
    WorkerBoundsExact(t, N, L, T);
    var (jInf, jSup) := WorkerBounds(t, N, L, T);
    Sum(AntiDiagonalTerms(Y, t + 1, jInf, jSup))
  }

  /** The pooled `diagaver` (pycissa.py:171-188): realign, then one worker per
      output position, results concatenated in order. */
  function Diagaver(Y: seq<seq<real>>): (y: seq<real>)
    requires Rectangular(Y)
    ensures |y| == |Y| + |Y[0]| - 1
  {
    var Yo := Oriented(Y);
    var L := |Yo|;
    var N := |Yo[0]|;
    var T := N + L - 1;
    seq(T, t requires 0 <= t < T => DiagaverWorker(t, Yo, N, L, T))
  }

  lemma AntiDiagonalTermAt(Y: seq<seq<real>>, t1: int, jInf: int, jSup: int, m: int)
    requires Rectangular(Y) && 1 <= jInf <= jSup <= |Y|
    requires 0 <= t1 - jSup && t1 - jInf < |Y[0]|
    requires jInf <= m <= jSup
    ensures AntiDiagonalTerms(Y, t1, jInf, jSup)[m - jInf] == Y[m - 1][t1 - m] / ((jSup - jInf + 1) as real)
  {
  }

  lemma DiagaverAt(Y: seq<seq<real>>, t: int)
    requires Rectangular(Y) && 0 <= t < |Y| + |Y[0]| - 1
    ensures WorkerInput(t, Oriented(Y), |Oriented(Y)[0]|, |Oriented(Y)|, |Y| + |Y[0]| - 1)
    ensures Diagaver(Y)[t] == DiagaverWorker(t, Oriented(Y), |Oriented(Y)[0]|, |Oriented(Y)|, |Y| + |Y[0]| - 1)
  {
  }

  /** The inner loop of `diagaver_single_thread`: for m = jInf..jSup add
      Y[m-1, t-m]/nsum to y[t-1] (pycissa.py:126-128). */
  method AccumulateAntiDiagonal(y: array<real>, Y: seq<seq<real>>, t: int, jInf: int, jSup: int)
    requires Rectangular(Y) && 1 <= jInf <= jSup <= |Y|
    requires 0 <= t - jSup && t - jInf < |Y[0]|
    requires 1 <= t <= y.Length
    modifies y
    ensures y[t - 1] == old(y[t - 1]) + Sum(AntiDiagonalTerms(Y, t, jInf, jSup))
    ensures forall k :: 0 <= k < y.Length && k != t - 1 ==> y[k] == old(y[k])
  {
    var nsum := jSup - jInf + 1;
    ghost var terms := AntiDiagonalTerms(Y, t, jInf, jSup);
    for m := jInf to jSup + 1
      invariant y[t - 1] == old(y[t - 1]) + Sum(terms[..m - jInf])
      invariant forall k :: 0 <= k < y.Length && k != t - 1 ==> y[k] == old(y[k])
    {
      ghost var done := terms[..m - jInf + 1];
      assert done[..m - jInf] == terms[..m - jInf];
      AntiDiagonalTermAt(Y, t, jInf, jSup, m);
      y[t - 1] := y[t - 1] + Y[m - 1][t - m] / (nsum as real);
    }
    assert terms[..jSup - jInf + 1] == terms;
  }

  /** One pass of the outer loop of `diagaver_single_thread`: the bounds of
      anti-diagonal t, then its average into y[t-1] (pycissa.py:117-128). */
  method OutputPosition(y: array<real>, Y: seq<seq<real>>, N: int, L: int, T: int, t: int)
    requires Rectangular(Y) && |Y| == L && |Y[0]| == N && L <= N && T == N + L - 1
    requires y.Length == T && 1 <= t <= T && y[t - 1] == 0.0
    modifies y
    ensures WorkerInput(t - 1, Y, N, L, T)
    ensures y[t - 1] == DiagaverWorker(t - 1, Y, N, L, T)
    ensures forall k :: 0 <= k < y.Length && k != t - 1 ==> y[k] == old(y[k])
  {
    var jInf, jSup;
    if 1 <= t && t <= L - 1 {
      jInf, jSup := 1, t;
    } else if L <= t && t <= N {
      jInf, jSup := 1, L;
    } else {
      jInf, jSup := t - N + 1, T - N + 1;
    }
    assert (jInf, jSup) == WorkerBounds(t - 1, N, L, T);
    WorkerBoundsExact(t - 1, N, L, T);
    AccumulateAntiDiagonal(y, Y, t, jInf, jSup);
  }

  /** `diagaver_single_thread` (pycissa.py:95-130; the same code is
      models/cissa.py:66-88): a nested loop accumulating Y[m-1, t-m]/nsum into
      y[t-1]. It computes exactly what the pooled version computes. */
  method DiagaverSingleThread(Y: seq<seq<real>>) returns (y: seq<real>)
    requires Rectangular(Y)
    ensures y == Diagaver(Y)
  {
    var LL, NN := |Y|, |Y[0]|;
    var Yt := Y;
    if LL > NN {
      Yt := Transpose(Y);
    }
    var L := Min(LL, NN);
    var N := Max(LL, NN);
    var T := N + L - 1;
    assert Yt == Oriented(Y) && Rectangular(Yt) && |Yt| == L && |Yt[0]| == N;
    var buf := new real[T](_ => 0.0);
    for t := 1 to T + 1
      invariant forall k :: 0 <= k < t - 1 ==> buf[k] == DiagaverWorker(k, Yt, N, L, T)
      invariant forall k :: t - 1 <= k < T ==> buf[k] == 0.0
    {
      OutputPosition(buf, Yt, N, L, T, t);
    }
    y := buf[..];
    DiagaverFrom(Y, y);
  }

  /** A sequence holding every worker's value, position by position, is the
      pooled result. */
  lemma DiagaverFrom(Y: seq<seq<real>>, y: seq<real>)
    requires Rectangular(Y) && |y| == |Y| + |Y[0]| - 1
    requires forall k :: 0 <= k < |y| ==>
      WorkerInput(k, Oriented(Y), |Oriented(Y)[0]|, |Oriented(Y)|, |y|) &&
      y[k] == DiagaverWorker(k, Oriented(Y), |Oriented(Y)[0]|, |Oriented(Y)|, |y|)
    ensures y == Diagaver(Y)
  {
    forall k | 0 <= k < |y|
      ensures y[k] == Diagaver(Y)[k]
    {
      DiagaverAt(Y, k);
    }
  }
}
