/** diagnostics/x13_diags.py: the sliding-spans and revision-history
    diagnostics of a seasonal adjustment, in the style of X-13ARIMA-SEATS.

    The seasonal-adjustment fit (`model.fit` followed by `model.adjust`) is a
    parameter: a function from the observed values to the seasonally adjusted
    ones, or None where the fit raises X13Error. A cell of a frame is None
    where pandas holds NA (or NaN, which the code turns into NA or drops along
    with it).

    `A.replace(np.nan, pd.NA)` turns each column that holds a NaN into a
    column of Python objects, whose arithmetic is Python float arithmetic: a
    zero divisor raises ZeroDivisionError instead of giving inf. A column
    without NaN keeps float64, and its arithmetic gives inf or NaN (`Float`).
    With a positive sliding length no span reaches both ends of the series,
    so every column of a SlidingSpans frame, and one whole row of it, is NA
    (SlidingFrameUncovered). In a RevisionHistory frame only the adjustment
    of the whole series can be complete (RevisionColumnComplete), and the
    model follows float64 arithmetic there. */
module X13Diags {
  import opened Common

  // ---------------------------------------------------------------------
  // check_format (diagnostics/x13_diags.py:20-31)
  // ---------------------------------------------------------------------

  /** The argument of `check_format`: a Timestamp, or anything else, which
      the code turns into text with `str`. */
  datatype DateArg = Stamp(date: Date) | Text(text: string)

  /** The formats `check_format` tries, in this order. */
  const Formats: seq<string> := ["%Y-%m-%d", "%Y%m%d", "%Y/%m/%d"]

  /** `pd.to_datetime(text, format=f)`: the date, or None where it raises
      ValueError. */
  type Parser = (string, string) -> Option<Date>

  /** The date of the first of `formats` that parses `text`; the last
      ValueError when none does. */
  function FirstParse(text: string, formats: seq<string>, parse: Parser): (r: Result<Date>)
    ensures r.Err? ==> r.error == ValueError
    ensures r.Err? <==> forall k :: 0 <= k < |formats| ==> parse(text, formats[k]).None?
    ensures r.Ok? ==> exists k :: 0 <= k < |formats| && parse(text, formats[k]) == Some(r.value)
  {
    if |formats| == 0 then Err(ValueError)
    else
      match parse(text, formats[0])
      case Some(d) => Ok(d)
      case None =>
        var r := FirstParse(text, formats[1..], parse);
        assert forall k :: 1 <= k < |formats| ==> formats[1..][k - 1] == formats[k];
        r
  }

  /** The first format that parses decides the date, whatever the later
      ones would give. */
  lemma {:induction false} FirstParseWins(text: string, formats: seq<string>, parse: Parser, k: nat)
    requires k < |formats| && parse(text, formats[k]).Some?
    requires forall j :: 0 <= j < k ==> parse(text, formats[j]).None?
    ensures FirstParse(text, formats, parse) == Ok(parse(text, formats[k]).value)
  {
    if k > 0 {
      assert parse(text, formats[0]).None?;
      FirstParseWins(text, formats[1..], parse, k - 1);
    }
  }

  /** `check_format`. */
  function CheckFormat(arg: DateArg, parse: Parser): (r: Result<Date>)
    ensures arg.Stamp? ==> r == Ok(arg.date)
    ensures r.Err? ==> r.error == ValueError
    ensures arg.Text? ==> (r.Err? <==> forall k :: 0 <= k < |Formats| ==> parse(arg.text, Formats[k]).None?)
  {
    match arg
    case Stamp(d) => Ok(d)
    case Text(s) => FirstParse(s, Formats, parse)
  }

  /** "%Y-%m-%d" is tried first, then "%Y%m%d", then "%Y/%m/%d". */
  lemma CheckFormatOrder(text: string, parse: Parser)
    ensures parse(text, "%Y-%m-%d").Some? ==>
      CheckFormat(Text(text), parse) == Ok(parse(text, "%Y-%m-%d").value)
    ensures parse(text, "%Y-%m-%d").None? && parse(text, "%Y%m%d").Some? ==>
      CheckFormat(Text(text), parse) == Ok(parse(text, "%Y%m%d").value)
    ensures parse(text, "%Y-%m-%d").None? && parse(text, "%Y%m%d").None? && parse(text, "%Y/%m/%d").Some? ==>
      CheckFormat(Text(text), parse) == Ok(parse(text, "%Y/%m/%d").value)
  {
    if parse(text, Formats[0]).Some? {
      FirstParseWins(text, Formats, parse, 0);
    } else if parse(text, Formats[1]).Some? {
      FirstParseWins(text, Formats, parse, 1);
    } else if parse(text, Formats[2]).Some? {
      FirstParseWins(text, Formats, parse, 2);
    }
  }

  // ---------------------------------------------------------------------
  // The spans of SlidingSpans.fit (diagnostics/x13_diags.py:47-52)
  // ---------------------------------------------------------------------

  /** `r` steps by `step` from `start`. */
  predicate Progression(r: seq<int>, start: int, step: int)
  {
    (|r| > 0 ==> r[0] == start) && forall k :: 0 <= k < |r| - 1 ==> r[k + 1] == r[k] + step
  }

  /** The k-th element of a progression is `start + k * step`. */
  lemma {:induction false} ProgressionAt(r: seq<int>, start: int, step: int, k: nat)
    requires Progression(r, start, step) && k < |r|
    ensures r[k] == start + k * step
  {
    if k > 0 {
      ProgressionAt(r, start, step, k - 1);
      assert (k - 1) * step + step == k * step;
    }
  }

  /** The step after the last element of a progression. */
  lemma ProgressionNext(r: seq<int>, start: int, step: int)
    requires Progression(r, start, step) && |r| > 0
    ensures r[|r| - 1] + step == start + |r| * step
  {
    ProgressionAt(r, start, step, |r| - 1);
    assert (|r| - 1) * step + step == |r| * step;
  }

  /** `range(start, stop, step)` for a positive step: every element is below
      `stop`, and the next step would reach it. */
  function RangeUp(start: int, stop: int, step: int): (r: seq<int>)
    requires step > 0
    ensures Progression(r, start, step)
    ensures forall k :: 0 <= k < |r| ==> r[k] < stop
    ensures if |r| == 0 then start >= stop else r[|r| - 1] + step >= stop
    decreases stop - start
  {
    if start >= stop then [] else [start] + RangeUp(start + step, stop, step)
  }

  /** `range(start, stop, step)` for a negative step: every element is above
      `stop`, and the next step would reach it. */
  function RangeDown(start: int, stop: int, step: int): (r: seq<int>)
    requires step < 0
    ensures Progression(r, start, step)
    ensures forall k :: 0 <= k < |r| ==> r[k] > stop
    ensures if |r| == 0 then start <= stop else r[|r| - 1] + step <= stop
    decreases start - stop
  {
    if start <= stop then [] else [start] + RangeDown(start + step, stop, step)
  }

  /** Python's `range(start, stop, step)`: ValueError for a zero step. */
  function PyRange(start: int, stop: int, step: int): (r: Result<seq<int>>)
    ensures r.Err? <==> step == 0
    ensures r.Err? ==> r.error == ValueError
    ensures r.Ok? ==> Progression(r.value, start, step)
    ensures r.Ok? && step > 0 ==>
      (forall k :: 0 <= k < |r.value| ==> r.value[k] < stop)
      && (if |r.value| == 0 then start >= stop else r.value[|r.value| - 1] + step >= stop)
    ensures r.Ok? && step < 0 ==>
      (forall k :: 0 <= k < |r.value| ==> r.value[k] > stop)
      && (if |r.value| == 0 then start <= stop else r.value[|r.value| - 1] + step <= stop)
  {
    if step == 0 then Err(ValueError)
    else if step > 0 then Ok(RangeUp(start, stop, step))
    else Ok(RangeDown(start, stop, step))
  }

  /** The positions `[lo, hi)` of the series that one span covers. */
  datatype Span = Span(lo: nat, hi: nat)

  /** `origin.iloc[j:j+span_len]`, or `origin.iloc[j-span_len:j]` for the
      inverse direction. */
  function SpanOf(n: nat, j: int, spanLen: int, inverse: bool): (sp: Span)
    ensures sp.lo <= n && sp.hi <= n
  {
    if inverse then Span(SliceBound(n, j - spanLen), SliceBound(n, j))
    else Span(SliceBound(n, j), SliceBound(n, j + spanLen))
  }

  /** The spans `fit` adjusts one after the other, for a series of length n. */
  function Spans(n: nat, slidingLen: int, spanLen: int, inverse: bool): (r: Result<seq<Span>>)
    ensures r.Err? <==> slidingLen == 0
    ensures r.Err? ==> r.error == ValueError
    ensures r.Ok? ==> forall k :: 0 <= k < |r.value| ==> r.value[k].lo <= n && r.value[k].hi <= n
  {
    var starts := if inverse then PyRange(n, spanLen, -slidingLen) else PyRange(0, n - spanLen, slidingLen);
    match starts
    case Err(e) => Err(e)
    case Ok(js) => Ok(seq(|js|, k requires 0 <= k < |js| => SpanOf(n, js[k], spanLen, inverse)))
  }

  /** The k-th start of a forward slide and the span it gives. */
  lemma ForwardSpanAt(n: nat, s: int, spanLen: int, js: seq<int>, k: nat)
    requires s > 0 && spanLen >= 0 && k < |js|
    requires Progression(js, 0, s) && forall i :: 0 <= i < |js| ==> js[i] < n - spanLen
    ensures js[k] == k * s && k * s < n - spanLen
    ensures SpanOf(n, js[k], spanLen, false) == Span(k * s, k * s + spanLen)
  {
    ProgressionAt(js, 0, s, k);
    assert 0 <= k * s by {
      assert 0 <= k && 0 < s;
    }
  }

  /** The number of forward spans: the next start would reach n - span_len. */
  lemma ForwardSpanCount(n: nat, s: int, spanLen: int)
    requires s > 0
    ensures |PyRange(0, n - spanLen, s).value| * s >= n - spanLen
  {
    var js := PyRange(0, n - spanLen, s).value;
    if |js| > 0 {
      ProgressionNext(js, 0, s);
    }
  }

  /** Forward spans start at 0, s, 2s, ... strictly below n - span_len (and
      no start is left out), and each covers `[j, j + span_len)`. */
  lemma ForwardSpans(n: nat, s: int, spanLen: int)
    requires s > 0 && spanLen >= 0
    ensures Spans(n, s, spanLen, false).Ok?
    ensures var sp := Spans(n, s, spanLen, false).value;
      (forall k :: 0 <= k < |sp| ==> k * s < n - spanLen && sp[k] == Span(k * s, k * s + spanLen))
      && |sp| * s >= n - spanLen
  {
    var js := PyRange(0, n - spanLen, s).value;
    var sp := seq(|js|, k requires 0 <= k < |js| => SpanOf(n, js[k], spanLen, false));
    assert Spans(n, s, spanLen, false) == Ok(sp);
    forall k | 0 <= k < |sp|
      ensures k * s < n - spanLen && sp[k] == Span(k * s, k * s + spanLen)
    {
      ForwardSpanAt(n, s, spanLen, js, k);
    }
    ForwardSpanCount(n, s, spanLen);
  }

  /** The k-th end of an inverse slide and the span it gives. */
  lemma InverseSpanAt(n: nat, s: int, spanLen: int, js: seq<int>, k: nat)
    requires s > 0 && spanLen >= 0 && k < |js|
    requires Progression(js, n, -s) && forall i :: 0 <= i < |js| ==> js[i] > spanLen
    ensures js[k] == n - k * s && n - k * s > spanLen
    ensures SpanOf(n, js[k], spanLen, true) == Span(n - k * s - spanLen, n - k * s)
  {
    ProgressionAt(js, n, -s, k);
    assert k * (-s) == -(k * s);
    assert 0 <= k * s by {
      assert 0 <= k && 0 < s;
    }
  }

  /** The number of inverse spans: the next end would reach span_len. */
  lemma InverseSpanCount(n: nat, s: int, spanLen: int)
    requires s > 0
    ensures n - |PyRange(n, spanLen, -s).value| * s <= spanLen
  {
    var js := PyRange(n, spanLen, -s).value;
    if |js| > 0 {
      ProgressionNext(js, n, -s);
      assert |js| * (-s) == -(|js| * s);
    }
  }

  /** Inverse spans end at n, n - s, ... strictly above span_len (and no end
      is left out), and each covers `[j - span_len, j)`. */
  lemma InverseSpans(n: nat, s: int, spanLen: int)
    requires s > 0 && spanLen >= 0
    ensures Spans(n, s, spanLen, true).Ok?
    ensures var sp := Spans(n, s, spanLen, true).value;
      (forall k :: 0 <= k < |sp| ==> n - k * s > spanLen && sp[k] == Span(n - k * s - spanLen, n - k * s))
      && n - |sp| * s <= spanLen
  {
    var js := PyRange(n, spanLen, -s).value;
    var sp := seq(|js|, k requires 0 <= k < |js| => SpanOf(n, js[k], spanLen, true));
    assert Spans(n, s, spanLen, true) == Ok(sp);
    forall k | 0 <= k < |sp|
      ensures n - k * s > spanLen && sp[k] == Span(n - k * s - spanLen, n - k * s)
    {
      InverseSpanAt(n, s, spanLen, js, k);
    }
    InverseSpanCount(n, s, spanLen);
  }

  // ---------------------------------------------------------------------
  // SlidingSpans.fit: the span matrix A (diagnostics/x13_diags.py:44-73)
  // ---------------------------------------------------------------------

  /** A cell of a frame: None where pandas holds NA. */
  type Cell = Option<real>

  /** A column with no NA: `replace(np.nan, pd.NA)` leaves it float64. */
  predicate Complete(col: seq<Cell>)
  {
    forall t :: 0 <= t < |col| ==> col[t].Some?
  }

  /** A float64 value: a real number, an infinity, or NaN. */
  datatype Float = Num(value: real) | Inf(negative: bool) | NaN

  /** A cell that may hold a non-finite float: None where pandas holds NA. */
  type FloatCell = Option<Float>

  /** `a / b` in float64: a zero divisor gives an infinity of the sign of a,
      or NaN for 0/0. */
  function FloatDivide(a: real, b: real): (r: Float)
    ensures r.Num? <==> b != 0.0
    ensures r.Num? ==> r.value * b == a
    ensures r == NaN <==> a == 0.0 && b == 0.0
    ensures r.Inf? ==> (r.negative <==> a < 0.0)
  {
    if b != 0.0 then Num(a / b) else if a == 0.0 then NaN else Inf(a < 0.0)
  }

  /** `a - b` on floats: an infinity absorbs a finite value, inf - inf of
      the same sign is NaN, and NaN spreads. */
  function FloatSubtract(a: Float, b: Float): (r: Float)
    ensures r.Num? <==> a.Num? && b.Num?
    ensures r.Num? ==> b.value + r.value == a.value
    ensures r == NaN <==> a == NaN || b == NaN || (a.Inf? && b.Inf? && a.negative == b.negative)
    ensures r.Inf? ==> (r.negative <==> if a.Inf? then a.negative else !b.negative)
  {
    match a
    case NaN => NaN
    case Num(u) =>
      (match b
       case NaN => NaN
       case Num(v) => Num(u - v)
       case Inf(n) => Inf(!n))
    case Inf(m) =>
      (match b
       case NaN => NaN
       case Num(_) => Inf(m)
       case Inf(n) => if m == n then NaN else Inf(m))
  }

  /** `model.fit(endog=...)` then `model.adjust().seasadj`: the seasonally
      adjusted values, or None where the fit raises X13Error. */
  type Adjuster = seq<real> -> Option<seq<real>>

  /** A frame whose rows are labelled by positions of the original series
      (`index`) and whose columns are stored one after the other. */
  datatype Grid<T> = Grid(index: seq<nat>, columns: seq<seq<T>>)

  /** A frame of adjusted values. */
  type Frame = Grid<Cell>

  /** Every column has one cell per row. */
  predicate Shaped<T>(A: Grid<T>)
  {
    forall c :: 0 <= c < |A.columns| ==> |A.columns[c]| == |A.index|
  }

  /** The observations one span covers (`origin.iloc[lo:hi]`). */
  function Window(x: seq<real>, sp: Span): seq<real>
  {
    Slice(x, sp.lo, sp.hi)
  }

  /** `pd.concat([A, Aj], axis=1)`: the adjusted values of a span laid
      against the n positions of the series, NA outside the span. */
  function Aligned(n: nat, sp: Span, adj: seq<real>): (col: seq<Cell>)
    ensures |col| == n
  {
    seq(n, p requires 0 <= p < n => if sp.lo <= p < sp.hi && p - sp.lo < |adj| then Some(adj[p - sp.lo]) else None)
  }

  /** The columns of A after the loop of `fit` has visited `spans`: a span
      whose fit raises X13Error adds nothing (the exception is built at
      line 69 but never raised). */
  function SpanColumns(x: seq<real>, spans: seq<Span>, adjust: Adjuster): (cols: seq<seq<Cell>>)
    ensures |cols| <= |spans|
    ensures forall c :: 0 <= c < |cols| ==> |cols[c]| == |x|
  {
    if |spans| == 0 then []
    else
      var sp := spans[|spans| - 1];
      var rest := SpanColumns(x, spans[..|spans| - 1], adjust);
      match adjust(Window(x, sp))
      case None => rest
      case Some(adj) => rest + [Aligned(|x|, sp, adj)]
  }

  /** The positions in `spans` of the spans whose fit succeeds, in order. */
  function Fitted(x: seq<real>, spans: seq<Span>, adjust: Adjuster): (ks: seq<nat>)
    ensures forall i :: 0 <= i < |ks| ==> ks[i] < |spans| && adjust(Window(x, spans[ks[i]])).Some?
    ensures forall i, j :: 0 <= i < j < |ks| ==> ks[i] < ks[j]
    ensures forall k :: 0 <= k < |spans| && adjust(Window(x, spans[k])).Some? ==> k in ks
  {
    if |spans| == 0 then []
    else
      var rest := Fitted(x, spans[..|spans| - 1], adjust);
      if adjust(Window(x, spans[|spans| - 1])).Some? then rest + [|spans| - 1] else rest
  }

  /** cols holds, one by one, the adjustment of the span at each position of
      ks, NA outside that span. */
  predicate ColumnsMatch(x: seq<real>, spans: seq<Span>, adjust: Adjuster, cols: seq<seq<Cell>>, ks: seq<nat>)
  {
    |cols| == |ks| &&
    forall c :: 0 <= c < |cols| ==>
      ks[c] < |spans| && adjust(Window(x, spans[ks[c]])).Some? &&
      cols[c] == Aligned(|x|, spans[ks[c]], adjust(Window(x, spans[ks[c]])).value)
  }

  lemma ColumnsMatchExtend(x: seq<real>, spans: seq<Span>, adjust: Adjuster, cols: seq<seq<Cell>>, ks: seq<nat>)
    requires |spans| > 0 && ColumnsMatch(x, spans[..|spans| - 1], adjust, cols, ks)
    ensures ColumnsMatch(x, spans, adjust, cols, ks)
  {
    var front := spans[..|spans| - 1];
    assert forall c :: 0 <= c < |cols| ==> spans[ks[c]] == front[ks[c]];
  }

  lemma ColumnsMatchAppend(x: seq<real>, spans: seq<Span>, adjust: Adjuster, cols: seq<seq<Cell>>, ks: seq<nat>, k: nat, adj: seq<real>)
    requires ColumnsMatch(x, spans, adjust, cols, ks)
    requires k < |spans| && adjust(Window(x, spans[k])) == Some(adj)
    ensures ColumnsMatch(x, spans, adjust, cols + [Aligned(|x|, spans[k], adj)], ks + [k])
  {
  }

  /** The fit skips exactly the spans whose fit fails: the c-th column of A
      is the adjustment of the c-th span that fits, NA outside that span. */
  lemma {:induction false} SpanColumnsFitted(x: seq<real>, spans: seq<Span>, adjust: Adjuster)
    ensures ColumnsMatch(x, spans, adjust, SpanColumns(x, spans, adjust), Fitted(x, spans, adjust))
  {
    if |spans| > 0 {
      var front := spans[..|spans| - 1];
      var sp := spans[|spans| - 1];
      var cols, ks := SpanColumns(x, front, adjust), Fitted(x, front, adjust);
      SpanColumnsFitted(x, front, adjust);
      ColumnsMatchExtend(x, spans, adjust, cols, ks);
      match adjust(Window(x, sp))
      case None =>
      case Some(adj) =>
        ColumnsMatchAppend(x, spans, adjust, cols, ks, |spans| - 1, adj);
    }
  }

  /** What `fit` leaves in `self.A`: ValueError for a zero sliding length
      (from `range`), X13Error when fewer than two spans fit or the series is
      empty. */
  function FitSpans(x: seq<real>, slidingLen: int, spanLen: int, inverse: bool, adjust: Adjuster): (r: Result<Frame>)
    ensures r.Err? ==> r.error == (if slidingLen == 0 then ValueError else X13Error)
    ensures slidingLen == 0 ==> r.Err?
    ensures r.Ok? ==> Shaped(r.value) && r.value.index == Range(0, |x|) && |x| > 0 && |r.value.columns| >= 2
  {
    match Spans(|x|, slidingLen, spanLen, inverse)
    case Err(e) => Err(e)
    case Ok(sp) =>
      var cols := SpanColumns(x, sp, adjust);
      if |x| == 0 || |cols| < 2 then Err(X13Error) else Ok(Grid(Range(0, |x|), cols))
  }

  /** A successful fit holds one column per span that fits, at least two. */
  lemma FitSpansColumns(x: seq<real>, slidingLen: int, spanLen: int, inverse: bool, adjust: Adjuster)
    requires slidingLen != 0
    ensures var sp := Spans(|x|, slidingLen, spanLen, inverse).value;
      var ks := Fitted(x, sp, adjust);
      var r := FitSpans(x, slidingLen, spanLen, inverse, adjust);
      (r.Ok? <==> |x| > 0 && |ks| >= 2) &&
      (r.Ok? ==> (|r.value.columns| == |ks| &&
        forall c :: 0 <= c < |ks| ==> r.value.columns[c] == Aligned(|x|, sp[ks[c]], adjust(Window(x, sp[ks[c]])).value)))
  {
    SpanColumnsFitted(x, Spans(|x|, slidingLen, spanLen, inverse).value, adjust);
  }

  /** The position no span reaches when the sliding length is positive: the
      last one sliding forward, the first one sliding back. */
  function Uncovered(n: nat, inverse: bool): (p: nat)
    requires n > 0
    ensures p < n
  {
    if inverse then 0 else n - 1
  }

  /** With a positive sliding length no span covers the uncovered position. */
  lemma SpanMissesEnd(n: nat, slidingLen: int, spanLen: int, inverse: bool, k: nat)
    requires n > 0 && slidingLen > 0
    requires k < |Spans(n, slidingLen, spanLen, inverse).value|
    ensures var sp := Spans(n, slidingLen, spanLen, inverse).value[k];
      !(sp.lo <= Uncovered(n, inverse) < sp.hi)
  {
    if inverse {
      var js := PyRange(n, spanLen, -slidingLen).value;
      assert js[k] > spanLen;
      assert Spans(n, slidingLen, spanLen, inverse).value[k] == SpanOf(n, js[k], spanLen, true);
    } else {
      var js := PyRange(0, n - spanLen, slidingLen).value;
      assert js[k] < n - spanLen;
      assert Spans(n, slidingLen, spanLen, inverse).value[k] == SpanOf(n, js[k], spanLen, false);
    }
  }

  /** With a positive sliding length, every column of a fitted frame has
      the uncovered position and is NA there. */
  lemma ColumnsMissEnd(x: seq<real>, slidingLen: int, spanLen: int, inverse: bool, adjust: Adjuster)
    requires slidingLen > 0 && FitSpans(x, slidingLen, spanLen, inverse, adjust).Ok?
    ensures var A := FitSpans(x, slidingLen, spanLen, inverse, adjust).value;
      |x| > 0 &&
      forall c :: 0 <= c < |A.columns| ==>
        Uncovered(|x|, inverse) < |A.columns[c]| && A.columns[c][Uncovered(|x|, inverse)].None?
  {
    var A := FitSpans(x, slidingLen, spanLen, inverse, adjust).value;
    var sp := Spans(|x|, slidingLen, spanLen, inverse).value;
    var ks := Fitted(x, sp, adjust);
    FitSpansColumns(x, slidingLen, spanLen, inverse, adjust);
    var p := Uncovered(|x|, inverse);
    forall c | 0 <= c < |A.columns|
      ensures p < |A.columns[c]| && A.columns[c][p].None?
    {
      SpanMissesEnd(|x|, slidingLen, spanLen, inverse, ks[c]);
    }
  }

  /** With a positive sliding length, every column of a fitted frame is NA at
      the uncovered position, so no column is complete and that row has no
      minimum: the frame and the `minA` built from its rows hold Python
      objects. */
  lemma SlidingFrameUncovered(x: seq<real>, slidingLen: int, spanLen: int, inverse: bool, adjust: Adjuster)
    requires slidingLen > 0 && FitSpans(x, slidingLen, spanLen, inverse, adjust).Ok?
    ensures var A := FitSpans(x, slidingLen, spanLen, inverse, adjust).value;
      |x| > 0 &&
      (forall c :: 0 <= c < |A.columns| ==> A.columns[c][Uncovered(|x|, inverse)].None? && !Complete(A.columns[c])) &&
      SeriesMin(Row(A, Uncovered(|x|, inverse))).None?
  {
    var A := FitSpans(x, slidingLen, spanLen, inverse, adjust).value;
    ColumnsMissEnd(x, slidingLen, spanLen, inverse, adjust);
    ValuesNone(Row(A, Uncovered(|x|, inverse)));
  }

  // ---------------------------------------------------------------------
  // SlidingSpans.min / max (diagnostics/x13_diags.py:75-81)
  // ---------------------------------------------------------------------

  /** `serie.dropna()`: the values that are present, in order. */
  function Values(s: seq<Cell>): (v: seq<real>)
    ensures |v| <= |s|
    ensures forall y :: y in v <==> Some(y) in s
  {
    if |s| == 0 then []
    else
      var rest := Values(s[..|s| - 1]);
      assert s == s[..|s| - 1] + [s[|s| - 1]];
      match s[|s| - 1]
      case None => rest
      case Some(y) => rest + [y]
  }

  /** A series of NA cells has no values. */
  lemma {:induction false} ValuesNone(s: seq<Cell>)
    requires forall i :: 0 <= i < |s| ==> s[i].None?
    ensures Values(s) == []
  {
    if |s| > 0 {
      ValuesNone(s[..|s| - 1]);
    }
  }

  /** The largest of a non-empty sequence. */
  function SeqMax(v: seq<real>): (m: real)
    requires |v| > 0
    ensures m in v && forall y :: y in v ==> y <= m
  {
    if |v| == 1 then v[0]
    else
      var m := SeqMax(v[1..]);
      assert forall y :: y in v ==> y == v[0] || y in v[1..];
      if v[0] >= m then v[0] else m
  }

  /** The smallest of a non-empty sequence. */
  function SeqMin(v: seq<real>): (m: real)
    requires |v| > 0
    ensures m in v && forall y :: y in v ==> m <= y
  {
    if |v| == 1 then v[0]
    else
      var m := SeqMin(v[1..]);
      assert forall y :: y in v ==> y == v[0] || y in v[1..];
      if v[0] <= m then v[0] else m
  }

  /** `SlidingSpans.max`: NA unless at least two values are present. */
  function SeriesMax(s: seq<Cell>): (r: Option<real>)
    ensures r.None? <==> |Values(s)| <= 1
    ensures r.Some? ==> Some(r.value) in s && forall y :: Some(y) in s ==> y <= r.value
  {
    var v := Values(s);
    if |v| > 1 then Some(SeqMax(v)) else None
  }

  /** `SlidingSpans.min`: NA unless at least two values are present. */
  function SeriesMin(s: seq<Cell>): (r: Option<real>)
    ensures r.None? <==> |Values(s)| <= 1
    ensures r.Some? ==> Some(r.value) in s && forall y :: Some(y) in s ==> r.value <= y
  {
    var v := Values(s);
    if |v| > 1 then Some(SeqMin(v)) else None
  }

  /** Row k of a frame, one cell per column (`aggregate(..., axis=1)`). */
  function Row(A: Frame, k: nat): (row: seq<Cell>)
    ensures |row| == |A.columns|
  {
    seq(|A.columns|, c requires 0 <= c < |A.columns| => if k < |A.columns[c]| then A.columns[c][k] else None)
  }

  // ---------------------------------------------------------------------
  // A_ratio, MM_ratio, predict (diagnostics/x13_diags.py:83-114)
  // ---------------------------------------------------------------------

  /** One row of `_A_ratio` or `_MM_ratio`: the row label, the metric and
      `metric < threshold`. */
  datatype MetricRow = MetricRow(t: nat, metric: real, success: bool)

  /** `r` lists the present metrics of `metrics`, in index order, each with
      `metric < threshold` as its success flag. */
  predicate IsTable(metrics: seq<Option<real>>, threshold: real, r: seq<MetricRow>)
  {
    (forall i :: 0 <= i < |r| ==>
      r[i].t < |metrics| && metrics[r[i].t] == Some(r[i].metric) && r[i].success == (r[i].metric < threshold)) &&
    (forall i, j :: 0 <= i < j < |r| ==> r[i].t < r[j].t) &&
    (forall k :: 0 <= k < |metrics| && metrics[k].Some? ==> exists i :: 0 <= i < |r| && r[i].t == k)
  }

  /** Appending the last present metric to the table of the others gives the
      table of all of them. */
  lemma TableStep(metrics: seq<Option<real>>, threshold: real, rest: seq<MetricRow>, v: real)
    requires |metrics| > 0 && metrics[|metrics| - 1] == Some(v)
    requires IsTable(metrics[..|metrics| - 1], threshold, rest)
    ensures IsTable(metrics, threshold, rest + [MetricRow(|metrics| - 1, v, v < threshold)])
  {
    var front := metrics[..|metrics| - 1];
    var r := rest + [MetricRow(|metrics| - 1, v, v < threshold)];
    assert forall k :: 0 <= k < |front| ==> front[k] == metrics[k];
    forall k | 0 <= k < |metrics| && metrics[k].Some?
      ensures exists i :: 0 <= i < |r| && r[i].t == k
    {
      if k == |metrics| - 1 {
        assert r[|rest|].t == k;
      } else {
        assert front[k].Some?;
        var i :| 0 <= i < |rest| && rest[i].t == k;
        assert r[i].t == k;
      }
    }
  }

  /** The metric column with `success` added and the NA rows dropped
      (`dropna(axis=0, how='any')`). */
  function Table(metrics: seq<Option<real>>, threshold: real): (r: seq<MetricRow>)
    ensures forall i :: 0 <= i < |r| ==>
      r[i].t < |metrics| && metrics[r[i].t] == Some(r[i].metric) && r[i].success == (r[i].metric < threshold)
    ensures forall i, j :: 0 <= i < j < |r| ==> r[i].t < r[j].t
    ensures forall k :: 0 <= k < |metrics| && metrics[k].Some? ==> exists i :: 0 <= i < |r| && r[i].t == k
  {
    if |metrics| == 0 then []
    else
      var rest := Table(metrics[..|metrics| - 1], threshold);
      match metrics[|metrics| - 1]
      case None =>
        assert forall k :: 0 <= k < |metrics| - 1 ==> metrics[..|metrics| - 1][k] == metrics[k];
        rest
      case Some(v) =>
        TableStep(metrics, threshold, rest, v);
        rest + [MetricRow(|metrics| - 1, v, v < threshold)]
  }

  /** A row whose minimum is zero: `(maxA - minA) / minA` divides by it. */
  predicate ZeroMinimum(row: seq<Cell>)
  {
    SeriesMin(row) == Some(0.0)
  }

  /** `(max - min) / min` of one row: NA unless two values are present. */
  function RelativeSpread(row: seq<Cell>): (r: Option<real>)
    requires !ZeroMinimum(row)
    ensures r.None? <==> |Values(row)| <= 1
    ensures r.Some? ==> r.value * SeriesMin(row).value == SeriesMax(row).value - SeriesMin(row).value
  {
    match SeriesMin(row)
    case None => None
    case Some(m) => Some((SeriesMax(row).value - m) / m)
  }

  /** `max - min` of one row: NA unless two values are present. */
  function Spread(row: seq<Cell>): (r: Option<real>)
    ensures r.None? <==> |Values(row)| <= 1
    ensures r.Some? ==> r.value >= 0.0 && r.value == SeriesMax(row).value - SeriesMin(row).value
  {
    match SeriesMin(row)
    case None => None
    case Some(m) => Some(SeriesMax(row).value - m)
  }

  /** `A_ratio` on a fitted A. */
  function ATable(A: Frame, threshold: real): (r: Result<seq<MetricRow>>)
    ensures r.Err? <==> exists k :: 0 <= k < |A.index| && ZeroMinimum(Row(A, k))
    ensures r.Err? ==> r.error == ZeroDivisionError
  {
    if exists k :: 0 <= k < |A.index| && ZeroMinimum(Row(A, k)) then Err(ZeroDivisionError)
    else Ok(Table(AMetrics(A), threshold))
  }

  /** The metric column of `A_ratio`, one entry per time point. */
  function AMetrics(A: Frame): (m: seq<Option<real>>)
    requires forall k :: 0 <= k < |A.index| ==> !ZeroMinimum(Row(A, k))
    ensures |m| == |A.index|
  {
    seq(|A.index|, k requires 0 <= k < |A.index| => RelativeSpread(Row(A, k)))
  }

  /** The rows `A_ratio` keeps are exactly the time points where at least two
      spans are present, in order; each holds `(max - min) / min` across the
      spans (see RelativeSpread) and succeeds when that is below the
      threshold. */
  lemma ATableRows(A: Frame, threshold: real)
    ensures var r := ATable(A, threshold);
      r.Ok? ==>
        (forall i :: 0 <= i < |r.value| ==>
          r.value[i].t < |A.index| && |Values(Row(A, r.value[i].t))| >= 2 &&
          Some(r.value[i].metric) == RelativeSpread(Row(A, r.value[i].t)) &&
          r.value[i].success == (r.value[i].metric < threshold)) &&
        (forall i, j :: 0 <= i < j < |r.value| ==> r.value[i].t < r.value[j].t) &&
        (forall k :: 0 <= k < |A.index| && |Values(Row(A, k))| >= 2 ==> exists i :: 0 <= i < |r.value| && r.value[i].t == k)
  {
    var r := ATable(A, threshold);
    if r.Ok? {
      forall i | 0 <= i < |r.value|
        ensures r.value[i].t < |A.index| && |Values(Row(A, r.value[i].t))| >= 2
        ensures Some(r.value[i].metric) == RelativeSpread(Row(A, r.value[i].t))
      {
        ATableRowAt(A, threshold, i);
      }
      forall k | 0 <= k < |A.index| && |Values(Row(A, k))| >= 2
        ensures exists i :: 0 <= i < |r.value| && r.value[i].t == k
      {
        ATableHas(A, threshold, k);
      }
    }
  }

  /** One kept row of `A_ratio`. */
  lemma ATableRowAt(A: Frame, threshold: real, i: nat)
    requires ATable(A, threshold).Ok? && i < |ATable(A, threshold).value|
    ensures var row := ATable(A, threshold).value[i];
      row.t < |A.index| && Some(row.metric) == RelativeSpread(Row(A, row.t)) && |Values(Row(A, row.t))| >= 2
  {
    var metrics := AMetrics(A);
    assert ATable(A, threshold).value == Table(metrics, threshold);
  }

  /** A time point with two spans present has its row in `A_ratio`. */
  lemma ATableHas(A: Frame, threshold: real, k: nat)
    requires ATable(A, threshold).Ok? && k < |A.index| && |Values(Row(A, k))| >= 2
    ensures exists i :: 0 <= i < |ATable(A, threshold).value| && ATable(A, threshold).value[i].t == k
  {
    var metrics := AMetrics(A);
    assert ATable(A, threshold).value == Table(metrics, threshold);
    assert metrics[k].Some?;
  }

  /** `A.shift(1)` divides cell t of a column by cell t - 1, and Python's
      float division raises on a zero divisor. */
  predicate DividesByZero(col: seq<Cell>, t: int)
  {
    1 <= t < |col| && col[t].Some? && col[t - 1] == Some(0.0)
  }

  /** Cell t of `A / A.shift(1)`: NA in the first row and wherever either
      cell is NA. */
  function RatioCell(col: seq<Cell>, t: nat): (r: Cell)
    requires !DividesByZero(col, t)
    ensures r.Some? <==> 1 <= t < |col| && col[t].Some? && col[t - 1].Some?
    ensures r.Some? ==> r.value * col[t - 1].value == col[t].value
  {
    if 1 <= t < |col| && col[t].Some? && col[t - 1].Some? then Some(col[t].value / col[t - 1].value) else None
  }

  /** `A / A.shift(1)`. */
  function ShiftRatio(A: Frame): (r: Result<Frame>)
    ensures r.Err? <==> exists c, t :: 0 <= c < |A.columns| && 0 <= t < |A.columns[c]| && DividesByZero(A.columns[c], t)
    ensures r.Err? ==> r.error == ZeroDivisionError
    ensures r.Ok? ==> r.value.index == A.index && |r.value.columns| == |A.columns|
    ensures r.Ok? ==> forall c :: 0 <= c < |A.columns| ==> |r.value.columns[c]| == |A.columns[c]|
  {
    if exists c, t :: 0 <= c < |A.columns| && 0 <= t < |A.columns[c]| && DividesByZero(A.columns[c], t) then Err(ZeroDivisionError)
    else
      Ok(Grid(A.index, seq(|A.columns|, c requires 0 <= c < |A.columns| =>
        seq(|A.columns[c]|, t requires 0 <= t < |A.columns[c]| => RatioCell(A.columns[c], t)))))
  }

  /** `MM_ratio` on a fitted A. */
  function MMTable(A: Frame, threshold: real): (r: Result<seq<MetricRow>>)
    ensures r.Err? <==> exists c, t :: 0 <= c < |A.columns| && 0 <= t < |A.columns[c]| && DividesByZero(A.columns[c], t)
    ensures r.Err? ==> r.error == ZeroDivisionError
  {
    match ShiftRatio(A)
    case Err(e) => Err(e)
    case Ok(MM) => Ok(Table(MMMetrics(MM), threshold))
  }

  /** The metric column of `MM_ratio`, one entry per time point. */
  function MMMetrics(MM: Frame): (m: seq<Option<real>>)
    ensures |m| == |MM.index|
  {
    seq(|MM.index|, k requires 0 <= k < |MM.index| => Spread(Row(MM, k)))
  }

  /** One kept row of `MM_ratio`. */
  lemma MMTableRowAt(A: Frame, threshold: real, i: nat)
    requires MMTable(A, threshold).Ok? && i < |MMTable(A, threshold).value|
    ensures var row, MM := MMTable(A, threshold).value[i], ShiftRatio(A).value;
      row.t < |A.index| && Some(row.metric) == Spread(Row(MM, row.t)) && |Values(Row(MM, row.t))| >= 2
  {
    var metrics := MMMetrics(ShiftRatio(A).value);
    assert MMTable(A, threshold).value == Table(metrics, threshold);
  }

  /** A time point with two month-to-month ratios present has its row in
      `MM_ratio`. */
  lemma MMTableHas(A: Frame, threshold: real, k: nat)
    requires MMTable(A, threshold).Ok? && k < |A.index| && |Values(Row(ShiftRatio(A).value, k))| >= 2
    ensures exists i :: 0 <= i < |MMTable(A, threshold).value| && MMTable(A, threshold).value[i].t == k
  {
    var metrics := MMMetrics(ShiftRatio(A).value);
    assert MMTable(A, threshold).value == Table(metrics, threshold);
    assert metrics[k].Some?;
  }

  /** The cells of a defined `A / A.shift(1)`, one by one. */
  lemma ShiftRatioCells(A: Frame)
    requires ShiftRatio(A).Ok?
    ensures forall c, t :: 0 <= c < |A.columns| && 0 <= t < |A.columns[c]| ==>
      ShiftRatio(A).value.columns[c][t] == RatioCell(A.columns[c], t)
  {
  }

  /** Each cell of the month-to-month frame is the ratio of a cell of A to
      the one before it (see RatioCell). The rows `MM_ratio` keeps are
      exactly the time points where at least two spans have such a ratio, in
      order; each holds the spread of those ratios (see Spread) and succeeds
      when it is below the threshold. */
  lemma MMTableRows(A: Frame, threshold: real)
    ensures var r := MMTable(A, threshold);
      r.Ok? ==>
        var MM := ShiftRatio(A).value;
        (forall c, t :: 0 <= c < |A.columns| && 0 <= t < |A.columns[c]| ==> MM.columns[c][t] == RatioCell(A.columns[c], t)) &&
        (forall i :: 0 <= i < |r.value| ==>
          r.value[i].t < |A.index| && |Values(Row(MM, r.value[i].t))| >= 2 &&
          Some(r.value[i].metric) == Spread(Row(MM, r.value[i].t)) &&
          r.value[i].success == (r.value[i].metric < threshold)) &&
        (forall i, j :: 0 <= i < j < |r.value| ==> r.value[i].t < r.value[j].t) &&
        (forall k :: 0 <= k < |A.index| && |Values(Row(MM, k))| >= 2 ==> exists i :: 0 <= i < |r.value| && r.value[i].t == k)
  {
    var r := MMTable(A, threshold);
    if r.Ok? {
      var MM := ShiftRatio(A).value;
      ShiftRatioCells(A);
      assert r.value == Table(MMMetrics(MM), threshold);
      forall i | 0 <= i < |r.value|
        ensures r.value[i].t < |A.index| && |Values(Row(MM, r.value[i].t))| >= 2
        ensures Some(r.value[i].metric) == Spread(Row(MM, r.value[i].t))
      {
        MMTableRowAt(A, threshold, i);
      }
      forall k | 0 <= k < |A.index| && |Values(Row(MM, k))| >= 2
        ensures exists i :: 0 <= i < |r.value| && r.value[i].t == k
      {
        MMTableHas(A, threshold, k);
      }
    }
  }

  /** The number of successful rows. */
  function Successes(rows: seq<MetricRow>): (n: nat)
    ensures n <= |rows|
  {
    if |rows| == 0 then 0 else Successes(rows[..|rows| - 1]) + (if rows[|rows| - 1].success then 1 else 0)
  }

  /** A ratio of a count to a larger positive total lies in [0, 1]. */
  lemma FractionBounds(v: real, n: real, k: real)
    requires n > 0.0 && 0.0 <= k <= n && v * n == k
    ensures 0.0 <= v <= 1.0
  {
  }

  /** `success.sum() / len(success)`: numpy gives nan for an empty table. */
  function Fraction(rows: seq<MetricRow>): (r: Ratio)
    ensures r.Finite? <==> |rows| > 0
    ensures r.Finite? ==> 0.0 <= r.value <= 1.0 && r.value * |rows| as real == Successes(rows) as real
  {
    var r := Divide(Successes(rows) as real, |rows| as real);
    if r.Finite? then
      FractionBounds(r.value, |rows| as real, Successes(rows) as real);
      r
    else r
  }

  /** A fraction is 1 exactly when every row succeeds. */
  lemma {:induction false} AllSucceed(rows: seq<MetricRow>)
    ensures Successes(rows) == |rows| <==> forall i :: 0 <= i < |rows| ==> rows[i].success
  {
    if |rows| > 0 {
      var front := rows[..|rows| - 1];
      AllSucceed(front);
      assert forall i :: 0 <= i < |front| ==> front[i] == rows[i];
    }
  }

  // ---------------------------------------------------------------------
  // The SlidingSpans object (diagnostics/x13_diags.py:34-114)
  // ---------------------------------------------------------------------

  /** The sliding-spans diagnostic: A holds the adjustment of each span, and
      the ratio tables and metrics are stored as they are computed. */
  class SlidingSpans {
    const adjust: Adjuster
    const slidingLen: int
    const spanLen: int
    var A: Option<Frame>
    var aRatio: Option<seq<MetricRow>>
    var mmRatio: Option<seq<MetricRow>>
    var aMetric: Option<Ratio>
    var mmMetric: Option<Ratio>

    /** `SlidingSpans(model, sliding_len, span_len)`: nothing fitted yet. */
    constructor(adjust: Adjuster, slidingLen: int, spanLen: int)
      ensures this.adjust == adjust && this.slidingLen == slidingLen && this.spanLen == spanLen
      ensures A.None? && aRatio.None? && mmRatio.None? && aMetric.None? && mmMetric.None?
    {
      this.adjust := adjust;
      this.slidingLen := slidingLen;
      this.spanLen := spanLen;
      A := None;
      aRatio, mmRatio := None, None;
      aMetric, mmMetric := None, None;
    }

    /** `fit`: adjusts span after span, keeps the ones that fit, and stores
        the frame only when at least two did. */
    method Fit(x: seq<real>, inverse: bool) returns (r: Result<()>)
      modifies this`A
      ensures r.Ok? <==> FitSpans(x, slidingLen, spanLen, inverse, adjust).Ok?
      ensures r.Ok? ==> A == Some(FitSpans(x, slidingLen, spanLen, inverse, adjust).value)
      ensures r.Err? ==> r.error == FitSpans(x, slidingLen, spanLen, inverse, adjust).error && A == old(A)
    {
      var spans := Spans(|x|, slidingLen, spanLen, inverse);
      if spans.Err? {
        return Err(spans.error);
      }
      var cols: seq<seq<Cell>> := [];
      for i := 0 to |spans.value|
        invariant cols == SpanColumns(x, spans.value[..i], adjust)
      {
        var sp := spans.value[i];
        var fitted := adjust(Window(x, sp));
        assert spans.value[..i + 1][..i] == spans.value[..i];
        if fitted.Some? {
          cols := cols + [Aligned(|x|, sp, fitted.value)];
        }
      }
      assert spans.value[..|spans.value|] == spans.value;
      if |x| == 0 || |cols| < 2 {
        return Err(X13Error);
      }
      A := Some(Grid(Range(0, |x|), cols));
      return Ok(());
    }

    /** `A_ratio`: Exception before a successful fit. */
    method ARatio(threshold: real) returns (r: Result<seq<MetricRow>>)
      modifies this`aRatio
      ensures A.None? ==> r == Err(PlainException)
      ensures A.Some? && (|A.value.index| == 0 || |A.value.columns| == 0) ==> r == Err(PlainException)
      ensures A.Some? && |A.value.index| > 0 && |A.value.columns| > 0 ==> r == ATable(A.value, threshold)
      ensures aRatio == (if r.Ok? then Some(r.value) else old(aRatio))
    {
      if A.None? || |A.value.index| == 0 || |A.value.columns| == 0 {
        return Err(PlainException);
      }
      r := ATable(A.value, threshold);
      if r.Ok? {
        aRatio := Some(r.value);
      }
    }

    /** `MM_ratio`: Exception before a successful fit. */
    method MMRatio(threshold: real) returns (r: Result<seq<MetricRow>>)
      modifies this`mmRatio
      ensures A.None? ==> r == Err(PlainException)
      ensures A.Some? && (|A.value.index| == 0 || |A.value.columns| == 0) ==> r == Err(PlainException)
      ensures A.Some? && |A.value.index| > 0 && |A.value.columns| > 0 ==> r == MMTable(A.value, threshold)
      ensures mmRatio == (if r.Ok? then Some(r.value) else old(mmRatio))
    {
      if A.None? || |A.value.index| == 0 || |A.value.columns| == 0 {
        return Err(PlainException);
      }
      r := MMTable(A.value, threshold);
      if r.Ok? {
        mmRatio := Some(r.value);
      }
    }

    /** `predict`: the fraction of successes in each table. Subscripting a
        table that was never computed raises TypeError, after `A_metric` has
        been stored if the A table exists. */
    method Predict() returns (r: Result<(Ratio, Ratio)>)
      modifies this`aMetric, this`mmMetric
      ensures aRatio.None? ==> r == Err(TypeError) && aMetric == old(aMetric) && mmMetric == old(mmMetric)
      ensures aRatio.Some? ==> aMetric == Some(Fraction(aRatio.value))
      ensures aRatio.Some? && mmRatio.None? ==> r == Err(TypeError) && mmMetric == old(mmMetric)
      ensures aRatio.Some? && mmRatio.Some? ==>
        mmMetric == Some(Fraction(mmRatio.value)) && r == Ok((Fraction(aRatio.value), Fraction(mmRatio.value)))
    {
      if aRatio.None? {
        return Err(TypeError);
      }
      aMetric := Some(Fraction(aRatio.value));
      if mmRatio.None? {
        return Err(TypeError);
      }
      mmMetric := Some(Fraction(mmRatio.value));
      return Ok((aMetric.value, mmMetric.value));
    }
  }

  // ---------------------------------------------------------------------
  // RevisionHistory.fit (diagnostics/x13_diags.py:123-147)
  // ---------------------------------------------------------------------

  /** The observed values of a dated series. */
  function Observations(x: seq<(Date, real)>): (v: seq<real>)
    ensures |v| == |x| && forall i :: 0 <= i < |x| ==> v[i] == x[i].1
  {
    seq(|x|, i requires 0 <= i < |x| => x[i].1)
  }

  /** A frame whose columns are named by dates (`A*|[date]`, `C*|[date]`). */
  datatype Revisions<T> = Revisions(dates: seq<Date>, frame: Grid<T>)

  /** The columns of A once the loop of `fit` has visited the dates at
      positions 3 .. m - 1: the column named by the date at position k adjusts
      `origin[:date]`, the first k + 1 observations. */
  function RevisionColumns(x: seq<(Date, real)>, adjust: Adjuster, m: nat): (cols: seq<(Date, seq<Cell>)>)
    requires m <= |x|
    ensures |cols| <= m
    ensures forall c :: 0 <= c < |cols| ==> |cols[c].1| == |x|
  {
    if m <= 3 then []
    else
      var rest := RevisionColumns(x, adjust, m - 1);
      match adjust(Observations(x[..m]))
      case None => rest
      case Some(adj) => rest + [(x[m - 1].0, Aligned(|x|, Span(0, m), adj))]
  }

  /** The lengths of the prefixes whose fit succeeds, in order. */
  function RevisionsFitted(x: seq<(Date, real)>, adjust: Adjuster, m: nat): (ks: seq<nat>)
    requires m <= |x|
    ensures forall i :: 0 <= i < |ks| ==> 4 <= ks[i] <= m && adjust(Observations(x[..ks[i]])).Some?
    ensures forall i, j :: 0 <= i < j < |ks| ==> ks[i] < ks[j]
    ensures forall k :: 4 <= k <= m && adjust(Observations(x[..k])).Some? ==> k in ks
  {
    if m <= 3 then []
    else
      var rest := RevisionsFitted(x, adjust, m - 1);
      if adjust(Observations(x[..m])).Some? then rest + [m] else rest
  }

  /** `col` is the column `fit` adds for the prefix of length k: named by
      its last date, holding its adjustment, NA after it. */
  predicate RevisionColumn(x: seq<(Date, real)>, adjust: Adjuster, k: nat, col: (Date, seq<Cell>))
  {
    1 <= k <= |x| && adjust(Observations(x[..k])).Some? &&
    col == (x[k - 1].0, Aligned(|x|, Span(0, k), adjust(Observations(x[..k])).value))
  }

  /** Column c of cols is the column of the prefix of length ks[c]. */
  predicate RevisionColumnsMatch(x: seq<(Date, real)>, adjust: Adjuster, cols: seq<(Date, seq<Cell>)>, ks: seq<nat>)
  {
    |cols| == |ks| && forall c :: 0 <= c < |cols| ==> RevisionColumn(x, adjust, ks[c], cols[c])
  }

  lemma RevisionColumnsMatchAppend(x: seq<(Date, real)>, adjust: Adjuster, cols: seq<(Date, seq<Cell>)>, ks: seq<nat>,
                                   k: nat, col: (Date, seq<Cell>))
    requires RevisionColumnsMatch(x, adjust, cols, ks) && RevisionColumn(x, adjust, k, col)
    ensures RevisionColumnsMatch(x, adjust, cols + [col], ks + [k])
  {
  }

  /** The c-th column of A is the column of the c-th prefix (of at least four
      observations) whose fit succeeds. */
  lemma {:induction false} RevisionColumnsFitted(x: seq<(Date, real)>, adjust: Adjuster, m: nat)
    requires m <= |x|
    ensures RevisionColumnsMatch(x, adjust, RevisionColumns(x, adjust, m), RevisionsFitted(x, adjust, m))
  {
    if m > 3 {
      RevisionColumnsFitted(x, adjust, m - 1);
      var rest, front := RevisionColumns(x, adjust, m - 1), RevisionsFitted(x, adjust, m - 1);
      match adjust(Observations(x[..m]))
      case None =>
      case Some(adj) =>
        RevisionColumnsMatchAppend(x, adjust, rest, front, m, (x[m - 1].0, Aligned(|x|, Span(0, m), adj)));
    }
  }

  /** What `fit` stores in `self.A`: X13Error when fewer than two prefixes
      fit or the series is empty. */
  function RevisionFrame(x: seq<(Date, real)>, adjust: Adjuster): (r: Result<Revisions<Cell>>)
    ensures r.Err? ==> r.error == X13Error
    ensures r.Ok? <==> |x| > 0 && |RevisionColumns(x, adjust, |x|)| >= 2
    ensures r.Ok? ==>
      Shaped(r.value.frame) && r.value.frame.index == Range(0, |x|) &&
      |r.value.dates| == |r.value.frame.columns| == |RevisionColumns(x, adjust, |x|)| &&
      forall c :: 0 <= c < |r.value.dates| ==>
        (r.value.dates[c], r.value.frame.columns[c]) == RevisionColumns(x, adjust, |x|)[c]
  {
    var cols := RevisionColumns(x, adjust, |x|);
    if |x| == 0 || |cols| < 2 then Err(X13Error)
    else
      Ok(Revisions(seq(|cols|, c requires 0 <= c < |cols| => cols[c].0),
                   Grid(Range(0, |x|), seq(|cols|, c requires 0 <= c < |cols| => cols[c].1))))
  }

  /** The column of a fitted prefix of length k misses every later date, so
      only the adjustment of the whole series, when it covers every date, is
      complete and stays float64. */
  lemma RevisionColumnComplete(x: seq<(Date, real)>, adjust: Adjuster, k: nat, col: (Date, seq<Cell>))
    requires RevisionColumn(x, adjust, k, col)
    ensures Complete(col.1) <==> k == |x| && |adjust(Observations(x[..k])).value| >= |x|
  {
    var adj := adjust(Observations(x[..k])).value;
    if k < |x| {
      assert col.1[|x| - 1].None?;
    } else if |adj| < |x| {
      assert col.1[|adj|].None?;
    }
  }

  /** A column changes from row t - 1 to row t: both cells are present. */
  predicate Changed(col: seq<Cell>, t: int)
  {
    1 <= t < |col| && col[t].Some? && col[t - 1].Some?
  }

  /** A relative change is defined from row t - 1 to row t: both cells are
      present and they are not both 0 (0/0 gives NaN, which becomes NA). */
  predicate ChangePresent(col: seq<Cell>, t: int)
  {
    Changed(col, t) && !(col[t].value == 0.0 && col[t - 1].value == 0.0)
  }

  /** Cell t of `(A - A.shift(1)) / A.shift(1)` after `replace(np.nan,
      pd.NA)`: NA in the first row and wherever either cell is NA. A zero
      divisor raises in a column of objects; in a complete (float64) column
      it gives an infinity of the sign of the new value, or NaN, turned into
      NA, when the new value is 0 too. */
  function ChangeCell(col: seq<Cell>, t: nat): (r: FloatCell)
    requires Complete(col) || !DividesByZero(col, t)
    ensures r.Some? <==> ChangePresent(col, t)
    ensures r.Some? ==> (r.value.Num? <==> col[t - 1].value != 0.0) && !r.value.NaN?
    ensures r.Some? && r.value.Num? ==> col[t - 1].value * (1.0 + r.value.value) == col[t].value
    ensures r.Some? && r.value.Inf? ==> (r.value.negative <==> col[t].value < 0.0)
  {
    if Changed(col, t) then
      var a, b := col[t].value, col[t - 1].value;
      var q := FloatDivide(a - b, b);
      if q.NaN? then None
      else
        assert q.Num? ==> b * (1.0 + q.value) == a by {
          if q.Num? {
            assert q.value * b == a - b;
          }
        }
        Some(q)
    else None
  }

  /** Some column of A changes at row t, so row t of C is not all NA. */
  predicate AnyChange(A: Frame, t: int)
  {
    exists c :: 0 <= c < |A.columns| && ChangePresent(A.columns[c], t)
  }

  /** The rows below m that `dropna(how='all')` keeps, in order. */
  function KeptRows(A: Frame, m: nat): (ks: seq<nat>)
    ensures forall i :: 0 <= i < |ks| ==> ks[i] < m && AnyChange(A, ks[i])
    ensures forall i, j :: 0 <= i < j < |ks| ==> ks[i] < ks[j]
    ensures forall t :: 0 <= t < m && AnyChange(A, t) ==> t in ks
  {
    if m == 0 then []
    else
      var rest := KeptRows(A, m - 1);
      if AnyChange(A, m - 1) then rest + [m - 1] else rest
  }

  /** A column of objects divides by a zero cell under a present one. */
  predicate RaisesOnChange(A: Frame)
  {
    exists c, t :: 0 <= c < |A.columns| && 0 <= t < |A.columns[c]| &&
      !Complete(A.columns[c]) && DividesByZero(A.columns[c], t)
  }

  /** What `fit` stores in `self.C`: the relative change of every column
      from one row to the next, with the all-NA rows dropped. */
  function Changes(A: Frame): (r: Result<Grid<FloatCell>>)
    ensures r.Err? <==> RaisesOnChange(A)
    ensures r.Err? ==> r.error == ZeroDivisionError
    ensures r.Ok? ==> r.value.index == KeptRows(A, |A.index|) && |r.value.columns| == |A.columns| && Shaped(r.value)
    ensures r.Ok? ==> forall c, i :: 0 <= c < |A.columns| && 0 <= i < |r.value.index| ==>
      r.value.columns[c][i] == ChangeCell(A.columns[c], r.value.index[i])
  {
    if RaisesOnChange(A) then Err(ZeroDivisionError)
    else
      var kept := KeptRows(A, |A.index|);
      Ok(Grid(kept, seq(|A.columns|, c requires 0 <= c < |A.columns| =>
        seq(|kept|, i requires 0 <= i < |kept| => ChangeCell(A.columns[c], kept[i])))))
  }

  // ---------------------------------------------------------------------
  // _A_n, _C_n, A_change, C_change, R_value (diagnostics/x13_diags.py:149-167)
  // ---------------------------------------------------------------------

  /** The first column named by `d`. */
  function FindDate(dates: seq<Date>, d: Date): (r: Option<nat>)
    ensures r.None? <==> d !in dates
    ensures r.Some? ==> r.value < |dates| && dates[r.value] == d
  {
    if |dates| == 0 then None
    else if dates[0] == d then Some(0)
    else
      match FindDate(dates[1..], d)
      case None => None
      case Some(i) => Some(i + 1)
  }

  /** `_A_n` / `_C_n`: the column named by a first-of-month date. A date not
      on day 1 raises ValueError; an unfitted table cannot be subscripted
      (TypeError); a date with no column raises KeyError. */
  function Lookup<T>(table: Option<Revisions<T>>, n: DateArg, parse: Parser): (r: Result<seq<T>>)
    requires table.Some? ==> |table.value.dates| == |table.value.frame.columns|
    ensures CheckFormat(n, parse).Err? ==> r == Err(ValueError)
    ensures CheckFormat(n, parse).Ok? && CheckFormat(n, parse).value.day != 1 ==> r == Err(ValueError)
    ensures CheckFormat(n, parse).Ok? && CheckFormat(n, parse).value.day == 1 ==>
      (table.None? ==> r == Err(TypeError)) &&
      (table.Some? && CheckFormat(n, parse).value !in table.value.dates ==> r == Err(KeyError))
    ensures r.Ok? ==>
      table.Some? && CheckFormat(n, parse).Ok? && CheckFormat(n, parse).value.day == 1 &&
      exists c :: 0 <= c < |table.value.dates| &&
        table.value.dates[c] == CheckFormat(n, parse).value && r.value == table.value.frame.columns[c]
  {
    match CheckFormat(n, parse)
    case Err(e) => Err(e)
    case Ok(d) =>
      if d.day != 1 then Err(ValueError)
      else
        match table
        case None => Err(TypeError)
        case Some(t) =>
          match FindDate(t.dates, d)
          case None => Err(KeyError)
          case Some(c) => Ok(t.frame.columns[c])
  }

  /** `(A_f - A_i) / A_i` cell by cell. When both columns are complete the
      arithmetic is float64 and a zero divisor gives an infinity or NaN;
      otherwise it is on Python objects, and a present numerator over a zero
      divisor raises ZeroDivisionError. */
  function RelativeChange(final: seq<Cell>, init: seq<Cell>): (r: Result<seq<FloatCell>>)
    ensures r.Err? <==> (!(Complete(final) && Complete(init)) &&
      exists t :: 0 <= t < |init| && t < |final| && final[t].Some? && init[t] == Some(0.0))
    ensures r.Err? ==> r.error == ZeroDivisionError
    ensures r.Ok? ==> |r.value| == |init|
    ensures r.Ok? ==> forall t :: 0 <= t < |init| ==>
      (r.value[t].Some? <==> t < |final| && final[t].Some? && init[t].Some?)
    ensures r.Ok? ==> forall t :: 0 <= t < |init| && r.value[t].Some? ==>
      (r.value[t].value.Num? <==> init[t].value != 0.0) &&
      (r.value[t].value == NaN <==> init[t].value == 0.0 && final[t].value == 0.0)
  {
    if !(Complete(final) && Complete(init)) &&
       exists t :: 0 <= t < |init| && t < |final| && final[t].Some? && init[t] == Some(0.0) then
      Err(ZeroDivisionError)
    else
      Ok(seq(|init|, t requires 0 <= t < |init| =>
        if t < |final| && final[t].Some? && init[t].Some? then
          Some(FloatDivide(final[t].value - init[t].value, init[t].value))
        else None))
  }

  /** Where the relative change is a number, applying it to the initial
      value gives the final one. */
  lemma RelativeChangeInverse(final: seq<Cell>, init: seq<Cell>, t: nat)
    requires RelativeChange(final, init).Ok? && t < |init|
    requires RelativeChange(final, init).value[t].Some? && RelativeChange(final, init).value[t].value.Num?
    ensures init[t].value * (1.0 + RelativeChange(final, init).value[t].value.value) == final[t].value
  {
    var a, b := final[t].value, init[t].value;
    var q := RelativeChange(final, init).value[t].value;
    assert q == FloatDivide(a - b, b);
    assert q.value * b == a - b;
  }

  /** c is the relative change from ai to af: present exactly where both
      are, a number exactly where ai is not 0, NaN exactly where both are 0,
      and ai grown by a number is af. */
  predicate GrowsTo(ai: seq<Cell>, af: seq<Cell>, c: seq<FloatCell>)
  {
    |c| == |ai| &&
    forall t :: 0 <= t < |ai| ==>
      (c[t].Some? <==> t < |af| && af[t].Some? && ai[t].Some?) &&
      (c[t].Some? ==> (c[t].value.Num? <==> ai[t].value != 0.0)) &&
      (c[t].Some? ==> (c[t].value == NaN <==> ai[t].value == 0.0 && af[t].value == 0.0)) &&
      (c[t].Some? && c[t].value.Num? ==> ai[t].value * (1.0 + c[t].value.value) == af[t].value)
  }

  /** A defined relative change grows the initial values into the final ones. */
  lemma RelativeChangeGrows(final: seq<Cell>, init: seq<Cell>)
    requires RelativeChange(final, init).Ok?
    ensures GrowsTo(init, final, RelativeChange(final, init).value)
  {
    var c := RelativeChange(final, init).value;
    forall t | 0 <= t < |init| && c[t].Some? && c[t].value.Num?
      ensures init[t].value * (1.0 + c[t].value.value) == final[t].value
    {
      RelativeChangeInverse(final, init, t);
    }
  }

  /** `C_f - C_i` cell by cell, on Python floats (C holds objects). */
  function Difference(final: seq<FloatCell>, init: seq<FloatCell>): (r: seq<FloatCell>)
    ensures |r| == |final|
    ensures forall t :: 0 <= t < |final| ==> (r[t].Some? <==> t < |init| && final[t].Some? && init[t].Some?)
    ensures forall t :: 0 <= t < |final| && r[t].Some? ==>
      (r[t].value.Num? <==> final[t].value.Num? && init[t].value.Num?) &&
      (r[t].value.Num? ==> init[t].value.value + r[t].value.value == final[t].value.value)
  {
    seq(|final|, t requires 0 <= t < |final| =>
      if t < |init| && final[t].Some? && init[t].Some? then Some(FloatSubtract(final[t].value, init[t].value)) else None)
  }

  // ---------------------------------------------------------------------
  // The RevisionHistory object (diagnostics/x13_diags.py:116-167)
  // ---------------------------------------------------------------------

  /** The loop of `RevisionHistory.fit` over the growing prefixes
      x[..k+1], k = 3..n-1, and the table it builds. */
  method CollectRevisions(x: seq<(Date, real)>, adjust: Adjuster) returns (r: Result<Revisions<Cell>>)
    ensures r == RevisionFrame(x, adjust)
  {
    var cols: seq<(Date, seq<Cell>)> := [];
    if |x| > 3 {
      for k := 3 to |x|
        invariant cols == RevisionColumns(x, adjust, k)
      {
        var fitted := adjust(Observations(x[..k + 1]));
        if fitted.Some? {
          cols := cols + [(x[k].0, Aligned(|x|, Span(0, k + 1), fitted.value))];
        }
      }
    }
    if |x| == 0 || |cols| < 2 {
      return Err(X13Error);
    }
    r := Ok(Revisions(seq(|cols|, c requires 0 <= c < |cols| => cols[c].0),
                      Grid(Range(0, |x|), seq(|cols|, c requires 0 <= c < |cols| => cols[c].1))));
  }

  /** The revision-history diagnostic: column `A*|[d]` adjusts the series up
      to date d, C holds the relative month-to-month changes of A, and T is
      the last date of the series. */
  class RevisionHistory {
    const adjust: Adjuster
    var A: Option<Revisions<Cell>>
    var C: Option<Revisions<FloatCell>>
    var T: Option<Date>

    /** The stored tables name every column. */
    predicate Valid()
      reads this
    {
      (A.Some? ==> Shaped(A.value.frame) && |A.value.dates| == |A.value.frame.columns|) &&
      (C.Some? ==> Shaped(C.value.frame) && |C.value.dates| == |C.value.frame.columns|)
    }

    /** `RevisionHistory(model)`: nothing fitted yet. */
    constructor(adjust: Adjuster)
      ensures Valid() && this.adjust == adjust && A.None? && C.None? && T.None?
    {
      this.adjust := adjust;
      A, C, T := None, None, None;
    }

    /** `fit`. A is stored before C is computed, so a zero divisor in C
        leaves the new A beside the old C and T. */
    method Fit(x: seq<(Date, real)>) returns (r: Result<()>)
      requires Valid()
      modifies this`A, this`C, this`T
      ensures Valid()
      ensures RevisionFrame(x, adjust).Err? ==> r == Err(X13Error) && A == old(A) && C == old(C) && T == old(T)
      ensures RevisionFrame(x, adjust).Ok? ==> A == Some(RevisionFrame(x, adjust).value)
      ensures RevisionFrame(x, adjust).Ok? && Changes(A.value.frame).Err? ==>
        r == Err(ZeroDivisionError) && C == old(C) && T == old(T)
      ensures RevisionFrame(x, adjust).Ok? && Changes(A.value.frame).Ok? ==>
        r == Ok(()) && C == Some(Revisions(A.value.dates, Changes(A.value.frame).value)) && T == Some(x[|x| - 1].0)
    {
      var fitted := CollectRevisions(x, adjust);
      if fitted.Err? {
        return Err(X13Error);
      }
      var a := fitted.value;
      A := Some(a);
      var changes := Changes(a.frame);
      if changes.Err? {
        return Err(ZeroDivisionError);
      }
      C := Some(Revisions(a.dates, changes.value));
      T := Some(x[|x| - 1].0);
      return Ok(());
    }

    /** `_A_n`. */
    function ANth(n: DateArg, parse: Parser): Result<seq<Cell>>
      reads this
      requires Valid()
    {
      Lookup(A, n, parse)
    }

    /** `_C_n`. */
    function CNth(n: DateArg, parse: Parser): Result<seq<FloatCell>>
      reads this
      requires Valid()
    {
      Lookup(C, n, parse)
    }

    /** `A_change(n_final, n_init)`: the initial column is looked up first.
        Two complete columns divide as float64; otherwise a present final
        value over a zero initial one raises ZeroDivisionError. Where the
        change is a number, the initial adjustment grown by it is the final
        one. */
    function AChange(final: DateArg, init: DateArg, parse: Parser): (r: Result<seq<FloatCell>>)
      reads this
      requires Valid()
      ensures ANth(init, parse).Err? ==> r == Err(ANth(init, parse).error)
      ensures ANth(init, parse).Ok? && ANth(final, parse).Err? ==> r == Err(ANth(final, parse).error)
      ensures ANth(init, parse).Ok? && ANth(final, parse).Ok? ==>
        var ai, af := ANth(init, parse).value, ANth(final, parse).value;
        (r.Err? <==> RelativeChange(af, ai).Err?) &&
        (r.Err? ==> r.error == ZeroDivisionError)
      ensures r.Ok? ==>
        ANth(init, parse).Ok? && ANth(final, parse).Ok? &&
        GrowsTo(ANth(init, parse).value, ANth(final, parse).value, r.value)
    {
      match ANth(init, parse)
      case Err(e) => Err(e)
      case Ok(ai) =>
        match ANth(final, parse)
        case Err(e) => Err(e)
        case Ok(af) =>
          var r := RelativeChange(af, ai);
          if r.Ok? then RelativeChangeGrows(af, ai); r else r
    }

    /** `C_change(n_final, n_init)`: the final column is looked up first.
        C holds Python floats, so an infinity minus an infinity of the same
        sign is NaN rather than an error. Where the difference is a number,
        the initial change plus it is the final one. */
    function CChange(final: DateArg, init: DateArg, parse: Parser): (r: Result<seq<FloatCell>>)
      reads this
      requires Valid()
      ensures CNth(final, parse).Err? ==> r == Err(CNth(final, parse).error)
      ensures CNth(final, parse).Ok? && CNth(init, parse).Err? ==> r == Err(CNth(init, parse).error)
      ensures r.Ok? ==> (CNth(final, parse).Ok? && CNth(init, parse).Ok? &&
        var cf, ci := CNth(final, parse).value, CNth(init, parse).value;
        |r.value| == |cf| &&
        forall t :: 0 <= t < |cf| ==>
          (r.value[t].Some? <==> t < |ci| && cf[t].Some? && ci[t].Some?) &&
          (r.value[t].Some? ==> (r.value[t].value.Num? <==> cf[t].value.Num? && ci[t].value.Num?)) &&
          (r.value[t].Some? && r.value[t].value.Num? ==> ci[t].value.value + r.value[t].value.value == cf[t].value.value))
    {
      match CNth(final, parse)
      case Err(e) => Err(e)
      case Ok(cf) =>
        match CNth(init, parse)
        case Err(e) => Err(e)
        case Ok(ci) => Ok(Difference(cf, ci))
    }

    /** `self.T` as `check_format` sees it: before a fit it is None, which
        `str` turns into "None". */
    function LastDate(): DateArg
      reads this
    {
      if T.None? then Text("None") else Stamp(T.value)
    }

    /** `R_value(t)`: the last cell of `A_change(T, t)`; an empty change
        series raises IndexError. */
    function RValue(t: DateArg, parse: Parser): (r: Result<FloatCell>)
      reads this
      requires Valid()
      ensures AChange(LastDate(), t, parse).Err? ==> r == Err(AChange(LastDate(), t, parse).error)
      ensures AChange(LastDate(), t, parse).Ok? ==>
        var s := AChange(LastDate(), t, parse).value;
        r == (if |s| == 0 then Err(IndexError) else Ok(s[|s| - 1]))
    {
      match AChange(LastDate(), t, parse)
      case Err(e) => Err(e)
      case Ok(s) => if |s| == 0 then Err(IndexError) else Ok(s[|s| - 1])
    }
  }

  /** The R value is the relative revision of the last observation: its
      adjustment as of date t, grown by R, is its final adjustment. */
  lemma RValueRevision(h: RevisionHistory, t: DateArg, parse: Parser)
    requires h.Valid()
    requires h.RValue(t, parse).Ok? && h.RValue(t, parse).value.Some? && h.RValue(t, parse).value.value.Num?
    ensures var ai, af := h.ANth(t, parse).value, h.ANth(h.LastDate(), parse).value;
      |ai| > 0 && ai[|ai| - 1].value * (1.0 + h.RValue(t, parse).value.value.value) == af[|ai| - 1].value
  {
  }

  /** `R_value(T)` compares the whole-series adjustment with itself: when
      that column is complete (float64) it never raises on a zero, and it is
      0, or NaN where the last adjustment is 0. */
  lemma RValueSelf(h: RevisionHistory, parse: Parser)
    requires h.Valid()
    requires h.ANth(h.LastDate(), parse).Ok?
    requires var a := h.ANth(h.LastDate(), parse).value; Complete(a) && |a| > 0
    ensures var a := h.ANth(h.LastDate(), parse).value;
      h.RValue(h.LastDate(), parse) ==
        Ok(Some(if a[|a| - 1].value == 0.0 then NaN else Num(0.0)))
  {
    var a := h.ANth(h.LastDate(), parse).value;
    var c := RelativeChange(a, a);
    assert c.Ok?;
    assert c.value[|a| - 1] == Some(FloatDivide(a[|a| - 1].value - a[|a| - 1].value, a[|a| - 1].value));
  }
}
