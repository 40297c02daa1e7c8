/** Shared vocabulary of the model: Python's exception kinds, Result/Option
    wrappers, and exact sums over sequences of reals. */
module Common {

  /** The exception classes the modelled code raises (or lets escape). */
  datatype Error =
    | ValueError
    | TypeError              // `raise('...')` of a str ends up as a TypeError
    | IndexError
    | KeyError
    | UnboundLocalError      // a local read before any branch assigned it
    | ZeroDivisionError
    | OverflowError          // int() of an infinite float
    | X13Error
    | LibraryError           // raised inside numpy/scipy; the exact class is not modelled
    | OutOfFuel              // a loop the code does not bound ran past the model's fuel
    | PlainException         // `raise Exception(...)`

  datatype Result<T> = Ok(value: T) | Err(error: Error)

  datatype Option<T> = None | Some(value: T)

  /** A Python value passed where the code expects a number (or a dict). */
  datatype PyArg =
    | PyInt(i: int)
    | PyFloat(f: real)
    | PyBool(b: bool)
    | PyDict(entries: seq<(Key, seq<real>)>)
    | PyOther

  /** A dictionary key of the grouping maps: a group name or an integer. */
  datatype Key = Name(name: string) | Number(n: int)

  /** A float quotient: numpy's division by zero gives inf or nan (with a
      warning, not an exception); both are NonFinite here. */
  datatype Ratio = Finite(value: real) | NonFinite

  function Divide(a: real, b: real): (r: Ratio)
    ensures r.Finite? <==> b != 0.0
    ensures r.Finite? ==> r.value * b == a
  {
    if b == 0.0 then NonFinite else Finite(a / b)
  }

  lemma MulDivCancel(n: real, a: real)
    requires n != 0.0
    ensures n * (a / n) == a
  {
  }

  /** The position a Python index i selects in a sequence of length n
      (negative indices count from the end), or None where Python raises
      IndexError. */
  function PyIndex(n: int, i: int): (p: Option<int>)
    ensures p.Some? <==> -n <= i < n
    ensures p.Some? ==> 0 <= p.value < n && (p.value == i || p.value == i + n)
  {
    if 0 <= i < n then Some(i) else if -n <= i < 0 then Some(i + n) else None
  }

  /** A Python slice bound resolved against a length n: negative bounds count
      from the end, and the result is clamped to 0..n. */
  function SliceBound(n: nat, b: int): (r: nat)
    ensures r <= n
    ensures 0 <= b <= n ==> r == b
  {
    if b < 0 then (if b + n < 0 then 0 else b + n) else if b > n then n else b
  }

  /** `s[lo:hi]` with Python's slicing rules. */
  function Slice<T>(s: seq<T>, lo: int, hi: int): (r: seq<T>)
    ensures var a, b := SliceBound(|s|, lo), SliceBound(|s|, hi);
      (a < b ==> r == s[a..b]) && (b <= a ==> r == [])
  {
    var a, b := SliceBound(|s|, lo), SliceBound(|s|, hi);
    if a < b then s[a..b] else []
  }

  /** A two-dimensional numpy array of floats with its shape. */
  datatype NdArray = NdArray(rows: nat, cols: nat, cells: seq<seq<real>>)
  {
    predicate WellFormed()
    {
      |cells| == rows && forall i :: 0 <= i < rows ==> |cells[i]| == cols
    }

    /** The values of a single-column array, top to bottom. */
    function ColumnValues(): (v: seq<real>)
      requires WellFormed() && cols == 1
      ensures |v| == rows
      ensures forall i :: 0 <= i < rows ==> v[i] == cells[i][0]
    {
      seq(rows, i requires 0 <= i < rows => cells[i][0])
    }
  }

  /** x reshaped to a (len(x), 1) column. */
  function ColumnVector(x: seq<real>): (a: NdArray)
    ensures a.WellFormed() && a.rows == |x| && a.cols == 1 && a.ColumnValues() == x
  {
    NdArray(|x|, 1, seq(|x|, i requires 0 <= i < |x| => [x[i]]))
  }

  function Min(a: int, b: int): int { if a <= b then a else b }
  function Max(a: int, b: int): int { if a >= b then a else b }

  function Abs(x: real): real { if x < 0.0 then -x else x }

  /** Python's int(x) on a float: truncation toward zero. */
  function Trunc(x: real): (n: int)
    ensures x >= 0.0 ==> n == x.Floor
    ensures (x >= 0.0 ==> n >= 0) && (x <= 0.0 ==> n <= 0)
    ensures Abs(n as real) <= Abs(x) < Abs(n as real) + 1.0
  {
    if x >= 0.0 then x.Floor else -((-x).Floor)
  }

  /** Left-to-right sum, the order in which the source accumulates. */
  function Sum(s: seq<real>): real
  {
    if |s| == 0 then 0.0 else Sum(s[..|s| - 1]) + s[|s| - 1]
  }

  lemma {:induction false} SumAppend(a: seq<real>, b: seq<real>)
    ensures Sum(a + b) == Sum(a) + Sum(b)
    decreases |b|
  {
    if |b| == 0 {
      assert a + b == a;
    } else {
      var ab := a + b;
      assert ab[..|ab| - 1] == a + b[..|b| - 1];
      SumAppend(a, b[..|b| - 1]);
    }
  }

  lemma SumCons(x: real, s: seq<real>)
    ensures Sum([x] + s) == x + Sum(s)
  {
    SumAppend([x], s);
    assert [x][..0] == [];
  }

  /** The sum does not depend on the order of the terms. */
  lemma {:induction false} SumPermutation(a: seq<real>, b: seq<real>)
    requires multiset(a) == multiset(b)
    ensures Sum(a) == Sum(b)
    decreases |a|
  {
    if |a| == 0 {
      assert |multiset(b)| == 0;
    } else {
      var n := |a| - 1;
      var x := a[n];
      assert a == a[..n] + [x];
      assert x in multiset(b);
      var i :| 0 <= i < |b| && b[i] == x;
      var rest := b[..i] + b[i + 1..];
      assert b == b[..i] + [x] + b[i + 1..];
      assert multiset(b) == multiset(rest) + multiset{x};
      assert multiset(a) == multiset(a[..n]) + multiset{x};
      assert multiset(rest) == multiset(b) - multiset{x};
      assert multiset(a[..n]) == multiset(a) - multiset{x};
      SumPermutation(a[..n], rest);
      SumAppend(b[..i] + [x], b[i + 1..]);
      SumAppend(b[..i], b[i + 1..]);
      assert (b[..i] + [x])[..i] == b[..i];
    }
  }

  /** Summing n copies of c gives n * c. */
  lemma {:induction false} SumConstant(s: seq<real>, c: real)
    requires forall i :: 0 <= i < |s| ==> s[i] == c
    ensures Sum(s) == (|s| as real) * c
  {
    if |s| > 0 {
      SumConstant(s[..|s| - 1], c);
    }
  }

  /** Sum is linear: summing pointwise sums. */
  lemma {:induction false} SumAdd(a: seq<real>, b: seq<real>, c: seq<real>)
    requires |a| == |b| == |c|
    requires forall i :: 0 <= i < |c| ==> c[i] == a[i] + b[i]
    ensures Sum(c) == Sum(a) + Sum(b)
  {
    if |c| > 0 {
      SumAdd(a[..|a| - 1], b[..|b| - 1], c[..|c| - 1]);
    }
  }

  lemma {:induction false} SumScale(a: seq<real>, c: seq<real>, k: real)
    requires |a| == |c|
    requires forall i :: 0 <= i < |c| ==> c[i] == k * a[i]
    ensures Sum(c) == k * Sum(a)
  {
    if |c| > 0 {
      SumScale(a[..|a| - 1], c[..|c| - 1], k);
    }
  }

  lemma {:induction false} SumNonNegative(s: seq<real>)
    requires forall i :: 0 <= i < |s| ==> s[i] >= 0.0
    ensures Sum(s) >= 0.0
  {
    if |s| > 0 {
      SumNonNegative(s[..|s| - 1]);
    }
  }

  lemma SumEqual(a: seq<real>, b: seq<real>)
    requires a == b
    ensures Sum(a) == Sum(b)
  {
  }

  /** A sum whose terms vanish except at p is its p-th term. */
  lemma {:induction false} SumIndicator(s: seq<real>, p: int)
    requires 0 <= p < |s|
    requires forall i :: 0 <= i < |s| && i != p ==> s[i] == 0.0
    ensures Sum(s) == s[p]
  {
    var init := s[..|s| - 1];
    if p == |s| - 1 {
      SumConstant(init, 0.0);
    } else {
      SumIndicator(init, p);
    }
  }

  /** Column j of a matrix M given as a list of rows. */
  function ColumnOf(M: seq<seq<real>>, j: int): (u: seq<real>)
    requires 0 <= j && forall i :: 0 <= i < |M| ==> j < |M[i]|
    ensures |u| == |M| && forall i :: 0 <= i < |M| ==> u[i] == M[i][j]
  {
    seq(|M|, i requires 0 <= i < |M| => M[i][j])
  }

  /** The sums of the columns of a matrix M (rows of width b). */
  function ColumnSums(M: seq<seq<real>>, b: nat): (c: seq<real>)
    requires forall i :: 0 <= i < |M| ==> |M[i]| == b
    ensures |c| == b && forall j :: 0 <= j < b ==> c[j] == Sum(ColumnOf(M, j))
  {
    seq(b, j requires 0 <= j < b => Sum(ColumnOf(M, j)))
  }

  /** The sums of the rows of a matrix M. */
  function RowSums(M: seq<seq<real>>): (r: seq<real>)
    ensures |r| == |M|
  {
    seq(|M|, i requires 0 <= i < |M| => Sum(M[i]))
  }

  /** Summing a matrix row by row or column by column gives the same total. */
  lemma {:induction false} SumSwap(M: seq<seq<real>>, b: nat)
    requires forall i :: 0 <= i < |M| ==> |M[i]| == b
    ensures Sum(RowSums(M)) == Sum(ColumnSums(M, b))
  {
    if |M| == 0 {
      SumConstant(ColumnSums(M, b), 0.0);
    } else {
      var Mi := M[..|M| - 1];
      var last := M[|M| - 1];
      SumSwap(Mi, b);
      assert RowSums(M)[..|M| - 1] == RowSums(Mi);
      var cs, cs0 := ColumnSums(M, b), ColumnSums(Mi, b);
      forall j | 0 <= j < b
        ensures cs[j] == cs0[j] + last[j]
      {
        assert ColumnOf(M, j)[..|M| - 1] == ColumnOf(Mi, j);
      }
      SumAdd(cs0, last, cs);
    }
  }

  /** range(lo, hi) as a sequence. */
  function Range(lo: int, hi: int): (r: seq<int>)
    ensures |r| == Max(0, hi - lo)
    ensures forall i :: 0 <= i < |r| ==> r[i] == lo + i
    ensures forall k :: k in r <==> lo <= k < hi
  {
    if hi <= lo then []
    else
      var r := seq(hi - lo, i requires 0 <= i < hi - lo => lo + i);
      forall k | lo <= k < hi
        ensures k in r
      {
        assert r[k - lo] == k;
      }
      r
  }

  /** A calendar date (a pandas Timestamp at day resolution). */
  datatype Date = Date(year: int, month: int, day: int)

  /** Chronological order. */
  predicate NotAfter(a: Date, b: Date)
  {
    a.year < b.year || (a.year == b.year && (a.month < b.month || (a.month == b.month && a.day <= b.day)))
  }

  /** `str(n)` of a non-negative integer. */
  function Decimal(n: nat): (d: string)
    ensures |d| >= 1
  {
    if n < 10 then [Digit(n)] else Decimal(n / 10) + [Digit(n % 10)]
  }

  function Digit(n: nat): char
    requires n < 10
  {
    "0123456789"[n]
  }

  /** A number below 100 as two digits, zero-padded (`%02d`). */
  function TwoDigits(m: int): (d: string)
    requires 0 <= m < 100
    ensures |d| == 2
  {
    [Digit(m / 10), Digit(m % 10)]
  }
}
