/** Series extension (CiSSA/pycissa.py `extend`, lines 268-328; the copy in
    models/cissa.py:90-121 differs only in dropping the checks). Only the
    no-extension and mirroring branches are computed here; the autoregressive
    branch is a foreign floating-point filter and enters as a parameter. */
module SeriesExtender {
  import opened Common

  /** `np.flipud` of a column. */
  function Reverse(s: seq<real>): (r: seq<real>)
    ensures |r| == |s|
    ensures forall i :: 0 <= i < |s| ==> r[i] == s[|s| - 1 - i]
  {
    seq(|s|, i requires 0 <= i < |s| => s[|s| - 1 - i])
  }

  /** What the autoregressive branch is assumed to deliver for an extension
      amount h >= 1: h forecasts on each side of the untouched series. */
  ghost predicate ArExtensionShape(ar: (seq<real>, int) -> seq<real>)
  {
    forall s: seq<real>, h: int {:trigger ar(s, h)} :: h >= 1 ==>
      |ar(s, h)| == |s| + 2 * h && ar(s, h)[h..h + |s|] == s
  }

  /** `extend(x, H)`. H must be a Python int (otherwise the code raises a str,
      which Python reports as a TypeError), x must have exactly one column. */
  function Extend(x: NdArray, H: PyArg, ar: (seq<real>, int) -> seq<real>): (r: Result<seq<real>>)
    requires x.WellFormed()
  {
    if !H.PyInt? then Err(TypeError)
    else if x.cols != 1 then Err(ValueError)
    else if H.i == 0 then Ok(x.ColumnValues())
    else if H.i == x.rows then Ok(Reverse(x.ColumnValues()) + x.ColumnValues() + Reverse(x.ColumnValues()))
    else Ok(ar(x.ColumnValues(), H.i))
  }

  /** The checks, in the order the code makes them: a non-int H is a
      TypeError whatever x is, then anything but one column is a ValueError,
      and nothing else fails. */
  lemma ExtendErrors(x: NdArray, H: PyArg, ar: (seq<real>, int) -> seq<real>)
    requires x.WellFormed()
    ensures Extend(x, H, ar).Err? <==> !H.PyInt? || x.cols != 1
    ensures !H.PyInt? ==> Extend(x, H, ar) == Err(TypeError)
    ensures H.PyInt? && x.cols != 1 ==> Extend(x, H, ar) == Err(ValueError)
  {
  }

  /** H = 0 copies the series; H = T mirrors it on both sides, giving
      reverse(x) ++ x ++ reverse(x) of length 3T. */
  lemma ExtendNoneAndMirror(x: seq<real>, ar: (seq<real>, int) -> seq<real>)
    ensures Extend(ColumnVector(x), PyInt(0), ar) == Ok(x)
    ensures |x| > 0 ==> Extend(ColumnVector(x), PyInt(|x|), ar).Ok?
    ensures |x| > 0 ==> var xe := Extend(ColumnVector(x), PyInt(|x|), ar).value;
      |xe| == 3 * |x| && xe[|x|..2 * |x|] == x &&
      forall i :: 0 <= i < |x| ==> xe[|x| - 1 - i] == x[i] && xe[3 * |x| - 1 - i] == x[i]
  {
  }

  /** The extension amount cissa uses: every branch returns T + 2H values with
      the original series untouched in the middle, which is what lets the
      decomposition trim H values from each end. */
  lemma ExtendKeepsSeries(x: seq<real>, H: int, ar: (seq<real>, int) -> seq<real>)
    requires ArExtensionShape(ar)
    requires H >= 0
    ensures Extend(ColumnVector(x), PyInt(H), ar).Ok?
    ensures var xe := Extend(ColumnVector(x), PyInt(H), ar).value;
      |xe| == |x| + 2 * H && xe[H..H + |x|] == x
  {
    var xe := Extend(ColumnVector(x), PyInt(H), ar).value;
    if H != 0 && H == |x| {
      assert xe[H..H + |x|] == x;
    } else if H != 0 {
      assert ar(x, H) == xe;
    }
  }
}
