/** CiSSA/CiSSA.py: the script that runs the pycissa engine on a monthly
    series. `get_cissa` picks the window and groups by the cadence of monthly
    data; `date_to_index` turns the (year, moving quarter) labels of the
    source table into first-of-month dates. */
module CissaScript {
  import opened Common
  import opened SeriesExtender
  import opened Decomposer
  import opened Grouper

  // ---------------------------------------------------------------------
  // get_cissa (CiSSA/CiSSA.py:100-121)
  // ---------------------------------------------------------------------

  /** `(T // 2 - 1) // 12 * 12`: the largest multiple of 12 that keeps two
      windows and a point to spare inside the series. */
  function MaxWindow(T: nat): (L: int)
    ensures L % 12 == 0
    ensures T >= 2 ==> 0 <= L && 2 * L <= T - 2
    ensures T >= 26 ==> L >= 12
  {
    (T / 2 - 1) / 12 * 12
  }

  /** The window get_cissa uses: the largest one, or the caller's L, which
      must be a multiple of 12 below T. */
  function GetWindow(T: nat, L: int, useMaxL: bool): (r: Result<int>)
    ensures r.Err? <==> !useMaxL && (L % 12 != 0 || L >= T)
    ensures r.Err? ==> r.error == ValueError
    ensures r.Ok? ==> r.value % 12 == 0 && (useMaxL ==> r.value == MaxWindow(T)) && (!useMaxL ==> r.value == L)
  {
    if useMaxL then Ok(MaxWindow(T))
    else if L % 12 != 0 then Err(ValueError)
    else if L >= T then Err(ValueError)
    else Ok(L)
  }

  /** The basis U fits the window get_cissa picks. */
  predicate BasisFits(T: nat, L: int, useMaxL: bool, U: seq<seq<real>>)
  {
    match GetWindow(T, L, useMaxL)
    case Err(_) => true
    case Ok(w) => w >= 1 ==> Shape(U, w, w)
  }

  /** `get_cissa(series, L, use_max_L)`: pycissa's `cissa` in its default
      mode on the series, then `group(Z, psd, 12)` with the default season
      and cycle lengths. U is the basis of the chosen window, ar the
      autoregressive extension and percentile the `np.percentile` oracle of
      the grouping step. */
  function GetCissa(x: seq<real>, L: int, useMaxL: bool, U: seq<seq<real>>, ar: (seq<real>, int) -> seq<real>,
                    percentile: (seq<real>, real) -> real): (r: Result<Grouping>)
    requires ArExtensionShape(ar) && BasisFits(|x|, L, useMaxL, U)
    ensures !useMaxL && (L % 12 != 0 || L >= |x|) ==> r == Err(ValueError)
  {
    match GetWindow(|x|, L, useMaxL)
    case Err(e) => Err(e)
    case Ok(w) =>
      match CissaOf(x, w, 0, U, ar)
      case Err(e) => Err(e)
      case Ok(d) => GroupSpec(d.Z, |x|, ColumnVector(d.psd), PyInt(12), 1.0, 1.5, 8.0, true, percentile)
  }

  /** With use_max_L the caller's window is ignored. */
  lemma GetCissaIgnoresL(x: seq<real>, L1: int, L2: int, U: seq<seq<real>>, ar: (seq<real>, int) -> seq<real>,
                         percentile: (seq<real>, real) -> real)
    requires ArExtensionShape(ar) && BasisFits(|x|, L1, true, U)
    ensures BasisFits(|x|, L2, true, U)
    ensures GetCissa(x, L1, true, U, ar, percentile) == GetCissa(x, L2, true, U, ar, percentile)
  {
  }

  /** The largest window never fails pycissa's window check; with a series
      of 26 points or more it is at least 12. */
  lemma MaxWindowPassesCheck(x: seq<real>, U: seq<seq<real>>, ar: (seq<real>, int) -> seq<real>)
    requires ArExtensionShape(ar) && BasisFits(|x|, 0, true, U)
    ensures var w := MaxWindow(|x|); w >= 1 ==> Shape(U, w, w)
    ensures CissaOf(x, MaxWindow(|x|), 0, U, ar) != Err(ValueError)
    ensures |x| >= 26 <==> CissaOf(x, MaxWindow(|x|), 0, U, ar).Ok?
  {
    var w := MaxWindow(|x|);
    if |x| < 2 {
      assert w == -12;
    } else if |x| < 26 {
      assert |x| / 2 - 1 < 12;
      assert w == 0;
    }
  }

  /** The default cycle bounds of cadence 12 for a window L that is a
      positive multiple of 12: 0 <= lo < hi <= L/2. */
  lemma DefaultCycleBounds(L: int)
    requires L >= 12 && L % 12 == 0
    ensures var lo, hi := CycleStart(L, 12.0, 8.0), CycleEnd(L, L / 2 + 1, 12.0, 1.5);
      0 <= lo < hi <= L / 2
  {
    var Lr := L as real;
    var lo := CycleStart(L, 12.0, 8.0);
    assert 8.0 * 12.0 == 96.0 && 1.5 * 12.0 == 18.0;
    var q := (Lr / 96.0).Floor;
    assert (Lr / 96.0 + 1.0).Floor == q + 1;
    assert lo == q;
    assert q as real <= Lr / 96.0 < Lr / 2.0;
    assert Lr / 2.0 == (L / 2) as real;
    var e := (Lr / 18.0 + 1.0).Floor;
    assert e as real > Lr / 18.0 >= Lr / 96.0 >= q as real;
  }

  /** Whole indices in [0, n) are valid for a sequence of length n. */
  lemma ValidIndices(n: int, s: seq<int>)
    requires forall i :: 0 <= i < |s| ==> 0 <= s[i] < n
    ensures ValidFor(n, Reals(s))
  {
  }

  /** With a whole window L and a cadence s dividing it, the j-th seasonal
      harmonic L(j+1)/s is the whole index (j+1) L/s. */
  lemma HarmonicIndex(L: nat, s: int, j: int)
    requires s >= 1 && L % s == 0 && 0 <= j < s / 2
    ensures |Seasonality(L, s as real, 1.0)| == s / 2
    ensures Trunc(Seasonality(L, s as real, 1.0)[j]) == (j + 1) * (L / s)
  {
    var sr := s as real;
    assert (sr / 2.0).Floor == s / 2;
    var v := Seasonality(L, sr, 1.0);
    assert sr * v[j] == (L as real) * ((j + 1) as real);
    var q := L / s;
    assert L == q * s;
    assert sr * (((j + 1) * q) as real) == (L as real) * ((j + 1) as real);
    assert v[j] == ((j + 1) * q) as real;
  }

  /** The cadence-12 groups of a window L that is a positive multiple of 12
      hold only indices below F = L/2 + 1, so the grouping of a
      decomposition with that window succeeds. */
  lemma CadenceTwelveGroups(L: nat, F: int)
    requires L >= 12 && L % 12 == 0 && F == L / 2 + 1
    ensures CadenceGroups(L, F, 12.0, 1.0, 1.5, 8.0, true).Ok?
    ensures var kg := CadenceGroups(L, F, 12.0, 1.0, 1.5, 8.0, true).value;
      forall g :: 0 <= g < |kg| ==> ValidFor(F, kg[g].1)
  {
    DefaultCycleBounds(L);
    var lo, hi := CycleStart(L, 12.0, 8.0), CycleEnd(L, F, 12.0, 1.5);
    var kg := CadenceGroups(L, F, 12.0, 1.0, 1.5, 8.0, true).value;
    var v := Seasonality(L, 12.0, 1.0);
    forall j | 0 <= j < |v|
      ensures 0 <= Trunc(v[j]) < F
    {
      HarmonicIndex(L, 12, j);
    }
    ValidIndices(F, Range(lo, hi));
    ValidIndices(F, Range(0, lo));
    ValidIndices(F, Missing(L / 2, Flatten(kg[..3])));
  }

  /** Grouping a decomposition whose window L is a positive multiple of 12
      by cadence 12 succeeds, with the four groups in the code's order. */
  lemma GroupTwelve(Z: seq<seq<real>>, T: nat, psd: seq<real>, percentile: (seq<real>, real) -> real)
    requires |psd| >= 12 && |psd| % 12 == 0 && |Z| == |psd| / 2 + 1 && Shape(Z, |Z|, T)
    ensures GroupSpec(Z, T, ColumnVector(psd), PyInt(12), 1.0, 1.5, 8.0, true, percentile).Ok?
    ensures var r := GroupSpec(Z, T, ColumnVector(psd), PyInt(12), 1.0, 1.5, 8.0, true, percentile).value;
      |r.kg| == 4 && |r.rc| == 4 && |r.sh| == 4 &&
      r.kg[0].0 == Name("seasonality") && r.kg[1].0 == Name("long term cycle") &&
      r.kg[2].0 == Name("trend") && r.kg[3].0 == Name("noise")
  {
    var w, F := |psd|, |Z|;
    assert Classify(PyInt(12)) == Ok(Cadence(12.0));
    assert Accepted(Cadence(12.0), w, F) by {
      FloatModZero(w as real, 12.0);
      assert w as real / 12.0 == (w / 12) as real;
    }
    PzzOfSpectrum(psd);
    CadenceTwelveGroups(w, F);
    var kg := CadenceGroups(w, F, 12.0, 1.0, 1.5, 8.0, true).value;
    var pzz := Pzz(psd, F).value;
    OutputsDefined(Z, T, pzz, kg);
    CadenceSeasonality(w, F, 12.0, 1.0, 1.5, 8.0, true);
    GroupOutputs(Z, T, ColumnVector(psd), PyInt(12), 1.0, 1.5, 8.0, true, percentile);
  }

  /** With use_max_L, get_cissa succeeds exactly on the series of 26
      points or more (below that the window is 0 or -12 and the
      decomposition fails inside numpy); it then returns the four groups
      seasonality, long term cycle, trend and noise, with one component and
      one share each. */
  lemma GetCissaSucceeds(x: seq<real>, L: int, U: seq<seq<real>>, ar: (seq<real>, int) -> seq<real>,
                         percentile: (seq<real>, real) -> real)
    requires ArExtensionShape(ar) && BasisFits(|x|, L, true, U)
    ensures GetCissa(x, L, true, U, ar, percentile).Ok? <==> |x| >= 26
    ensures |x| < 26 ==> GetCissa(x, L, true, U, ar, percentile) == Err(LibraryError)
    ensures GetCissa(x, L, true, U, ar, percentile).Ok? ==>
      var r := GetCissa(x, L, true, U, ar, percentile).value;
      |r.kg| == 4 && |r.rc| == 4 && |r.sh| == 4 &&
      r.kg[0].0 == Name("seasonality") && r.kg[1].0 == Name("long term cycle") &&
      r.kg[2].0 == Name("trend") && r.kg[3].0 == Name("noise")
  {
    MaxWindowPassesCheck(x, U, ar);
    if |x| >= 26 {
      var d := CissaOf(x, MaxWindow(|x|), 0, U, ar).value;
      GroupTwelve(d.Z, |x|, d.psd, percentile);
    }
  }

  // ---------------------------------------------------------------------
  // date_to_index (CiSSA/CiSSA.py:84-98)
  // ---------------------------------------------------------------------

  /** Python's `s.replace(pattern, replacement)`: every non-overlapping occurrence
      of pattern, from left to right. */
  function Replace(s: string, pattern: string, replacement: string): string
    requires |pattern| > 0
    decreases |s|
  {
    if |s| < |pattern| then s
    else if s[..|pattern|] == pattern then replacement + Replace(s[|pattern|..], pattern, replacement)
    else [s[0]] + Replace(s[1..], pattern, replacement)
  }

  /** The month the code gives the i-th distinct quarter label,
      `(12 - i - 7) % 12 + 1`: quarters are listed from the one ending in
      June backwards. */
  function MonthNumber(i: int): (m: int)
    ensures 1 <= m <= 12
  {
    ((12 - i) - 7) % 12 + 1
  }

  /** The label the code builds for the i-th distinct quarter: `str` of
      the month plus 1000, then "100" replaced by "0" and "101" by "1". */
  function MonthCode(i: int): string
  {
    Replace(Replace(Decimal(((12 - i) - 7) % 12 + 1001), "100", "0"), "101", "1")
  }

  /** Each of the first twelve labels becomes the two-digit month
      MonthNumber(i); the string surgery yields no other form. */
  lemma MonthCodeDigits(i: int)
    requires 0 <= i < 12
    ensures MonthCode(i) == TwoDigits(MonthNumber(i))
  {
    var m := MonthNumber(i);
    assert Decimal(m + 1000) == ['1', '0', Digit(m / 10), Digit(m % 10)] by {
      assert Decimal(m + 1000) == Decimal((m + 1000) / 10) + [Digit(m % 10)];
      assert Decimal((m + 1000) / 10) == Decimal((m + 1000) / 100) + [Digit(m / 10)];
      assert Decimal((m + 1000) / 100) == Decimal(10) == "10";
    }
    if m < 10 {
      MonthReplace(m);
    } else {
      MonthReplaceTwoDigit(m);
    }
  }

  lemma MonthReplace(m: int)
    requires 1 <= m < 10
    ensures Replace(Replace(['1', '0', Digit(m / 10), Digit(m % 10)], "100", "0"), "101", "1") == TwoDigits(m)
  {
    var s := ['1', '0', '0', Digit(m)];
    assert s[..3] == "100" && s[3..] == [Digit(m)];
    assert Replace(s, "100", "0") == "0" + [Digit(m)];
  }

  lemma MonthReplaceTwoDigit(m: int)
    requires 10 <= m <= 12
    ensures Replace(Replace(['1', '0', Digit(m / 10), Digit(m % 10)], "100", "0"), "101", "1") == TwoDigits(m)
  {
    var d := Digit(m % 10);
    var s := ['1', '0', '1', d];
    assert s[..3] == "101" && s[1..] == ['0', '1', d];
    assert s[1..][..3] != "100" by {
      assert s[1..][..3][0] == '0' && "100"[0] == '1';
    }
    assert Replace(s[1..][1..], "100", "0") == ['1', d];
    assert Replace(s, "100", "0") == s;
    assert s[3..] == [d];
  }

  /** The twelve labels get twelve different months, the first one June
      and the sixth January. */
  lemma MonthsDistinct(i: int, j: int)
    requires 0 <= i < j < 12
    ensures MonthNumber(i) != MonthNumber(j)
    ensures MonthNumber(0) == 6 && MonthNumber(5) == 1 && MonthNumber(6) == 12 && MonthNumber(11) == 7
  {
  }

  /** One row of the table: the year as `astype("string")` writes it, the
      moving-quarter label and the other columns. */
  datatype QuarterRow = QuarterRow(year: string, quarter: string, values: seq<real>)

  /** A dated row of the result. */
  type DatedRow = (Date, seq<real>)

  function Quarters(rows: seq<QuarterRow>): (q: seq<string>)
    ensures |q| == |rows| && forall i :: 0 <= i < |rows| ==> q[i] == rows[i].quarter
  {
    seq(|rows|, i requires 0 <= i < |rows| => rows[i].quarter)
  }

  /** `Series.unique()`: each label once, in order of first appearance. */
  function Unique(labels: seq<string>): (u: seq<string>)
    ensures forall x :: x in u <==> x in labels
    ensures forall i, j :: 0 <= i < j < |u| ==> u[i] != u[j]
  {
    if |labels| == 0 then []
    else
      var u := Unique(labels[..|labels| - 1]);
      assert labels == labels[..|labels| - 1] + [labels[|labels| - 1]];
      if labels[|labels| - 1] in u then u else u + [labels[|labels| - 1]]
  }

  function IndexOf(u: seq<string>, x: string): (i: int)
    requires x in u
    ensures 0 <= i < |u| && u[i] == x
  {
    if u[0] == x then 0 else 1 + IndexOf(u[1..], x)
  }

  /** The date string of a row whose label is the k-th distinct one. */
  function DateString(year: string, k: int): string
  {
    year + "-" + MonthCode(k) + "-01"
  }

  /** The `apply` over the label column: a label beyond the twelfth
      distinct one is missing from the zipped dictionary (KeyError). */
  function Labelled(rows: seq<QuarterRow>, u: seq<string>): (r: Result<seq<(string, seq<real>)>>)
    requires forall i :: 0 <= i < |rows| ==> rows[i].quarter in u
    ensures r.Err? ==> r.error == KeyError
    ensures r.Ok? ==> |r.value| == |rows| && forall i :: 0 <= i < |rows| ==>
      IndexOf(u, rows[i].quarter) < 12 && r.value[i] == (DateString(rows[i].year, IndexOf(u, rows[i].quarter)), rows[i].values)
    ensures r.Err? <==> exists i :: 0 <= i < |rows| && IndexOf(u, rows[i].quarter) >= 12
  {
    if |rows| == 0 then Ok([])
    else
      var k := IndexOf(u, rows[0].quarter);
      if k >= 12 then Err(KeyError)
      else match Labelled(rows[1..], u)
        case Err(e) =>
          var i :| 0 <= i < |rows[1..]| && IndexOf(u, rows[1..][i].quarter) >= 12;
          assert rows[1..][i] == rows[i + 1];
          Err(e)
        case Ok(rest) =>
          assert forall i :: 1 <= i < |rows| ==> rows[i] == rows[1..][i - 1];
          Ok([(DateString(rows[0].year, k), rows[0].values)] + rest)
  }

  /** `pd.to_datetime(..., format="%Y-%m-%d")` over the column, parse
      standing for one string's parse; a string it rejects is a
      ValueError. */
  function Parsed(items: seq<(string, seq<real>)>, parse: string -> Option<Date>): (r: Result<seq<DatedRow>>)
    ensures r.Err? ==> r.error == ValueError
    ensures r.Err? <==> exists i :: 0 <= i < |items| && parse(items[i].0).None?
    ensures r.Ok? ==> |r.value| == |items| && forall i :: 0 <= i < |items| ==>
      parse(items[i].0).Some? && r.value[i] == (parse(items[i].0).value, items[i].1)
  {
    if |items| == 0 then Ok([])
    else match parse(items[0].0)
      case None => Err(ValueError)
      case Some(d) =>
        match Parsed(items[1..], parse)
        case Err(e) =>
          var i :| 0 <= i < |items[1..]| && parse(items[1..][i].0).None?;
          assert items[1..][i] == items[i + 1];
          Err(e)
        case Ok(rest) =>
          assert forall i :: 1 <= i < |items| ==> items[i] == items[1..][i - 1];
          Ok([(d, items[0].1)] + rest)
  }

  predicate SortedByDate(s: seq<DatedRow>)
  {
    forall i :: 0 <= i < |s| - 1 ==> NotAfter(s[i].0, s[i + 1].0)
  }

  /** r placed before the first row that is not earlier than it. */
  function InsertByDate(r: DatedRow, s: seq<DatedRow>): (t: seq<DatedRow>)
    ensures |t| == |s| + 1
    ensures t[0] == r || (|s| > 0 && t[0] == s[0])
  {
    if |s| == 0 || NotAfter(r.0, s[0].0) then [r] + s
    else [s[0]] + InsertByDate(r, s[1..])
  }

  /** `sort_index()`; ties keep their order (quicksort leaves them in some
      order, and this is one it may give). */
  function SortByDate(s: seq<DatedRow>): seq<DatedRow>
  {
    if |s| == 0 then [] else InsertByDate(s[0], SortByDate(s[1..]))
  }

  lemma {:induction false} InsertKeepsOrder(r: DatedRow, s: seq<DatedRow>)
    requires SortedByDate(s)
    ensures SortedByDate(InsertByDate(r, s))
    ensures multiset(InsertByDate(r, s)) == multiset(s) + multiset{r}
    decreases |s|
  {
    if |s| > 0 && !NotAfter(r.0, s[0].0) {
      var rest := s[1..];
      assert SortedByDate(rest) by {
        forall i | 0 <= i < |rest| - 1
          ensures NotAfter(rest[i].0, rest[i + 1].0)
        {
          assert rest[i] == s[i + 1] && rest[i + 1] == s[i + 2];
        }
      }
      InsertKeepsOrder(r, rest);
      var t := InsertByDate(r, rest);
      assert s == [s[0]] + rest;
      assert NotAfter(s[0].0, t[0].0) by {
        if |rest| > 0 && t[0] == rest[0] {
          assert rest[0] == s[1];
        }
      }
    }
  }

  /** The sorted rows are in chronological order and are the same rows. */
  lemma {:induction false} SortByDateCorrect(s: seq<DatedRow>)
    ensures SortedByDate(SortByDate(s))
    ensures multiset(SortByDate(s)) == multiset(s)
    decreases |s|
  {
    if |s| > 0 {
      SortByDateCorrect(s[1..]);
      InsertKeepsOrder(s[0], SortByDate(s[1..]));
      assert s == [s[0]] + s[1..];
    }
  }

  /** `date_to_index(data)` on the rows of the table; the year and label
      columns are consumed and only the dates and the other columns
      remain. */
  function DateToIndex(rows: seq<QuarterRow>, parse: string -> Option<Date>): (r: Result<seq<DatedRow>>)
  {
    var u := Unique(Quarters(rows));
    match Labelled(rows, u)
    case Err(e) => Err(e)
    case Ok(items) =>
      match Parsed(items, parse)
      case Err(e) => Err(e)
      case Ok(dated) => Ok(SortByDate(dated))
  }

  /** The dated row the code makes of the i-th row: the label becomes the
      two-digit month of its place among the distinct labels. */
  function RowDate(rows: seq<QuarterRow>, i: int): string
    requires 0 <= i < |rows| && |Unique(Quarters(rows))| <= 12
  {
    assert rows[i].quarter in Quarters(rows);
    rows[i].year + "-" + TwoDigits(MonthNumber(IndexOf(Unique(Quarters(rows)), rows[i].quarter))) + "-01"
  }

  /** date_to_index raises KeyError exactly when the table has more than
      twelve distinct quarter labels. */
  lemma DateToIndexKeyError(rows: seq<QuarterRow>, parse: string -> Option<Date>)
    ensures DateToIndex(rows, parse) == Err(KeyError) <==> |Unique(Quarters(rows))| > 12
  {
    var u := Unique(Quarters(rows));
    if |u| > 12 {
      assert u[12] in Quarters(rows);
      var i :| 0 <= i < |rows| && Quarters(rows)[i] == u[12];
      assert IndexOf(u, rows[i].quarter) == 12;
    }
  }

  /** The dated rows the code builds, in input order: the year, the
      two-digit month of the row's label and day 01, parsed, with the other
      columns. */
  function DatedRows(rows: seq<QuarterRow>, parse: string -> Option<Date>): (r: seq<DatedRow>)
    requires |Unique(Quarters(rows))| <= 12
    requires forall i :: 0 <= i < |rows| ==> parse(RowDate(rows, i)).Some?
    ensures |r| == |rows|
  {
    seq(|rows|, i requires 0 <= i < |rows| => (parse(RowDate(rows, i)).value, rows[i].values))
  }

  /** When it succeeds, the result is in chronological order and holds one
      dated row per input row. */
  lemma DateToIndexResult(rows: seq<QuarterRow>, parse: string -> Option<Date>)
    requires DateToIndex(rows, parse).Ok?
    ensures |Unique(Quarters(rows))| <= 12
    ensures forall i :: 0 <= i < |rows| ==> parse(RowDate(rows, i)).Some?
    ensures var r := DateToIndex(rows, parse).value;
      SortedByDate(r) && multiset(r) == multiset(DatedRows(rows, parse))
  {
    DateToIndexRows(rows, parse);
    SortByDateCorrect(DatedRows(rows, parse));
  }

  /** Before sorting, the parsed rows are the dated rows in input order. */
  lemma DateToIndexRows(rows: seq<QuarterRow>, parse: string -> Option<Date>)
    requires DateToIndex(rows, parse).Ok?
    ensures |Unique(Quarters(rows))| <= 12
    ensures forall i :: 0 <= i < |rows| ==> parse(RowDate(rows, i)).Some?
    ensures DateToIndex(rows, parse).value == SortByDate(DatedRows(rows, parse))
  {
    var u := Unique(Quarters(rows));
    DateToIndexKeyError(rows, parse);
    var items := Labelled(rows, u).value;
    var dated := Parsed(items, parse).value;
    forall i | 0 <= i < |rows|
      ensures items[i].0 == RowDate(rows, i)
    {
      MonthCodeDigits(IndexOf(u, rows[i].quarter));
    }
    assert dated == DatedRows(rows, parse);
  }
}
