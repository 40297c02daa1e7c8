/** utils/preprocess.py: the ENE class that turns the labour-force survey
    files into monthly unemployment rates. Each file is a frame of
    respondents; respondents are counted (weighted by `fact_cal` when the
    frame has it) per survey period in eight cells, by employment status,
    sex and age band; the cell levels are smoothed into moving quarters, and
    totals and unemployment rates are derived from them. Reading and writing
    files, the directory listing and the HTTP requests are parameters or left
    out. */
module Preprocess {
  import opened Common

  // ---------------------------------------------------------------------
  // nivel_estratificado (utils/preprocess.py:78-95)
  // ---------------------------------------------------------------------

  /** A survey period (`ano_encuesta`, `mes_encuesta`). */
  type Period = (int, int)

  /** One respondent: the columns `groupby_cae` reads, and the expansion
      factor `fact_cal`. */
  datatype Respondent = Respondent(year: int, month: int, sexo: int, cae: int, edad: int, factCal: real)

  /** A survey frame: its rows, and whether it has a `fact_cal` column. */
  datatype Survey = Survey(rows: seq<Respondent>, hasFactCal: bool)

  function PeriodOf(r: Respondent): Period
  {
    (r.year, r.month)
  }

  /** The weight of a respondent: `fact_cal`, or 1 when the frame has no such
      column (line 80 adds it as the constant 1). */
  function Weight(s: Survey, r: Respondent): real
  {
    if s.hasFactCal then r.factCal else 1.0
  }

  datatype Estado = Desocupado | Ocupado

  /** The `estado` argument; ValueError for anything but the two names. */
  function ParseEstado(estado: string): (r: Result<Estado>)
    ensures r == Ok(Desocupado) <==> estado == "desocupado"
    ensures r == Ok(Ocupado) <==> estado == "ocupado"
    ensures r.Err? ==> r.error == ValueError
  {
    if estado == "desocupado" then Ok(Desocupado)
    else if estado == "ocupado" then Ok(Ocupado)
    else Err(ValueError)
  }

  /** `cae_especifico` in [8, 9] (unemployed) or in [1 .. 7] (employed). */
  predicate InEstado(e: Estado, cae: int)
  {
    if e == Desocupado then cae == 8 || cae == 9 else 1 <= cae <= 7
  }

  /** One cell of the table: status, sex (1 = h, 2 = m) and age band (15 to
      24 inclusive, or the rest). */
  datatype Stratum = Stratum(estado: Estado, sexo: int, young: bool)

  predicate InStratum(st: Stratum, r: Respondent)
  {
    InEstado(st.estado, r.cae) && r.sexo == st.sexo && (15 <= r.edad <= 24) == st.young
  }

  /** The column name: status initial, sex letter, band ("dh15", "om25"). */
  function StratumName(st: Stratum): string
  {
    [if st.estado == Desocupado then 'd' else 'o'] + [if st.sexo == 1 then 'h' else 'm'] + (if st.young then "15" else "25")
  }

  /** The four cells of a status, in the order nivel_estratificado returns
      them: h15, m15, h25, m25. */
  function StrataOf(e: Estado): seq<Stratum>
  {
    [Stratum(e, 1, true), Stratum(e, 2, true), Stratum(e, 1, false), Stratum(e, 2, false)]
  }

  /** A respondent of a status with sex 1 or 2 is in exactly one of its four
      cells: the bands are complementary and the sexes disjoint. */
  lemma StrataPartition(e: Estado, r: Respondent)
    requires InEstado(e, r.cae) && (r.sexo == 1 || r.sexo == 2)
    ensures exists k :: 0 <= k < 4 && InStratum(StrataOf(e)[k], r)
    ensures forall j, k :: 0 <= j < k < 4 ==> !(InStratum(StrataOf(e)[j], r) && InStratum(StrataOf(e)[k], r))
  {
    var k := (if r.sexo == 1 then 0 else 1) + (if 15 <= r.edad <= 24 then 0 else 2);
    assert InStratum(StrataOf(e)[k], r);
  }

  /** `groupby(date_set)['fact_cal'].sum()` over the first n rows of a cell:
      one entry per period that has a respondent in the cell. */
  function StratumSums(s: Survey, st: Stratum, n: nat): (m: map<Period, real>)
    requires n <= |s.rows|
    ensures forall p :: p in m <==> exists i :: 0 <= i < n && InStratum(st, s.rows[i]) && PeriodOf(s.rows[i]) == p
  {
    if n == 0 then map[]
    else
      var m := StratumSums(s, st, n - 1);
      var r := s.rows[n - 1];
      if InStratum(st, r) then m[PeriodOf(r) := (if PeriodOf(r) in m then m[PeriodOf(r)] else 0.0) + Weight(s, r)]
      else m
  }

  /** The weight of the first n respondents of a cell in one period, added
      up row by row. */
  function StratumTotal(s: Survey, st: Stratum, p: Period, n: nat): real
    requires n <= |s.rows|
  {
    if n == 0 then 0.0
    else StratumTotal(s, st, p, n - 1) + (if InStratum(st, s.rows[n - 1]) && PeriodOf(s.rows[n - 1]) == p then Weight(s, s.rows[n - 1]) else 0.0)
  }

  /** Each period's sum is the total weight of the cell's respondents in it. */
  lemma {:induction false} StratumSumsTotal(s: Survey, st: Stratum, n: nat)
    requires n <= |s.rows|
    ensures forall p :: p in StratumSums(s, st, n) ==> StratumSums(s, st, n)[p] == StratumTotal(s, st, p, n)
  {
    if n > 0 {
      StratumSumsTotal(s, st, n - 1);
      var m := StratumSums(s, st, n - 1);
      forall p | p in m && !(InStratum(st, s.rows[n - 1]) && PeriodOf(s.rows[n - 1]) == p)
        ensures StratumTotal(s, st, p, n) == m[p]
      {
      }
      forall p | p !in m
        ensures StratumTotal(s, st, p, n - 1) == 0.0
      {
        StratumTotalAbsent(s, st, p, n - 1);
      }
    }
  }

  /** A period with no respondent in the cell totals zero. */
  lemma {:induction false} StratumTotalAbsent(s: Survey, st: Stratum, p: Period, n: nat)
    requires n <= |s.rows| && p !in StratumSums(s, st, n)
    ensures StratumTotal(s, st, p, n) == 0.0
  {
    if n > 0 {
      StratumTotalAbsent(s, st, p, n - 1);
    }
  }

  /** `nivel_estratificado(raw, estado)`: the four cell series of a status,
      named by StratumName. */
  function NivelEstratificado(s: Survey, estado: string): (r: Result<seq<(string, map<Period, real>)>>)
    ensures r.Err? <==> estado != "desocupado" && estado != "ocupado"
    ensures r.Err? ==> r.error == ValueError
    ensures r.Ok? ==> (|r.value| == 4 &&
      var e := if estado == "desocupado" then Desocupado else Ocupado;
      forall k :: 0 <= k < 4 ==>
        r.value[k] == (StratumName(StrataOf(e)[k]), StratumSums(s, StrataOf(e)[k], |s.rows|)))
  {
    match ParseEstado(estado)
    case Err(err) => Err(err)
    case Ok(e) =>
      Ok(seq(4, k requires 0 <= k < 4 => (StratumName(StrataOf(e)[k]), StratumSums(s, StrataOf(e)[k], |s.rows|))))
  }

  /** The names of the cells are estado's initial followed by h15, m15, h25,
      m25. */
  lemma NivelNames(s: Survey, estado: string)
    requires estado == "desocupado" || estado == "ocupado"
    ensures var r := NivelEstratificado(s, estado).value;
      [r[0].0, r[1].0, r[2].0, r[3].0] ==
      [estado[..1] + "h15", estado[..1] + "m15", estado[..1] + "h25", estado[..1] + "m25"]
  {
    var e := if estado == "desocupado" then Desocupado else Ocupado;
    var c := if estado == "desocupado" then 'd' else 'o';
    assert estado[..1] == [c];
    assert StratumName(StrataOf(e)[0]) == [c] + "h15";
    assert StratumName(StrataOf(e)[1]) == [c] + "m15";
    assert StratumName(StrataOf(e)[2]) == [c] + "h25";
    assert StratumName(StrataOf(e)[3]) == [c] + "m25";
  }

  // ---------------------------------------------------------------------
  // The level table of groupby_cae (utils/preprocess.py:30-47)
  // ---------------------------------------------------------------------

  /** The eight cells in the column order of `nivel`: the employed cells,
      then the unemployed ones. */
  const Cells: seq<Stratum> := StrataOf(Ocupado) + StrataOf(Desocupado)

  /** One row of the level table: a period and one entry per column, None
      where pandas holds NaN. */
  datatype LevelRow = LevelRow(period: Period, cells: seq<Option<real>>)

  /** Chronological order of periods. */
  predicate Before(a: Period, b: Period)
  {
    a.0 < b.0 || (a.0 == b.0 && a.1 < b.1)
  }

  predicate StrictlySorted(ks: seq<Period>)
  {
    forall i, j :: 0 <= i < j < |ks| ==> Before(ks[i], ks[j])
  }

  /** Adds a period to a sorted list of distinct periods. */
  function InsertPeriod(p: Period, ks: seq<Period>): (r: seq<Period>)
    requires StrictlySorted(ks)
    ensures StrictlySorted(r)
    ensures forall q :: q in r <==> q == p || q in ks
  {
    if |ks| == 0 then [p]
    else if p == ks[0] then ks
    else if Before(p, ks[0]) then [p] + ks
    else
      var rest := InsertPeriod(p, ks[1..]);
      assert forall q :: q in ks <==> q == ks[0] || q in ks[1..];
      assert forall q :: q in rest ==> Before(ks[0], q);
      [ks[0]] + rest
  }

  /** A respondent counted in some cell of the table. */
  predicate Counted(r: Respondent)
  {
    exists k :: 0 <= k < |Cells| && InStratum(Cells[k], r)
  }

  /** The periods of the table of one file (the union of the eight cell
      indexes), sorted. */
  function FilePeriods(s: Survey, n: nat): (ks: seq<Period>)
    requires n <= |s.rows|
    ensures StrictlySorted(ks)
    ensures forall p :: p in ks <==> exists i :: 0 <= i < n && Counted(s.rows[i]) && PeriodOf(s.rows[i]) == p
  {
    if n == 0 then []
    else
      var ks := FilePeriods(s, n - 1);
      if Counted(s.rows[n - 1]) then InsertPeriod(PeriodOf(s.rows[n - 1]), ks) else ks
  }

  /** The table of one file (`pd.concat([ocupado, desocupado], axis=1)`): a
      row per period, NaN in the cells with nobody in that period. */
  function FileLevels(s: Survey): (rows: seq<LevelRow>)
    ensures forall i :: 0 <= i < |rows| ==> |rows[i].cells| == |Cells|
  {
    var ks := FilePeriods(s, |s.rows|);
    seq(|ks|, i requires 0 <= i < |ks| => LevelRow(ks[i], seq(|Cells|, k requires 0 <= k < |Cells| =>
      var m := StratumSums(s, Cells[k], |s.rows|);
      if ks[i] in m then Some(m[ks[i]]) else None)))
  }

  /** A file's table has one row per period with a counted respondent,
      in chronological order. */
  lemma FileLevelsPeriods(s: Survey)
    ensures var rows := FileLevels(s);
      (forall i, j :: 0 <= i < j < |rows| ==> Before(rows[i].period, rows[j].period)) &&
      (forall i :: 0 <= i < |rows| ==> PeriodCounted(s, rows[i].period)) &&
      (forall n :: 0 <= n < |s.rows| && Counted(s.rows[n]) ==>
        exists i :: 0 <= i < |rows| && rows[i].period == PeriodOf(s.rows[n]))
  {
    var rows := FileLevels(s);
    var ks := FilePeriods(s, |s.rows|);
    assert |rows| == |ks| && forall i :: 0 <= i < |rows| ==> rows[i].period == ks[i];
    forall n | 0 <= n < |s.rows| && Counted(s.rows[n])
      ensures exists i :: 0 <= i < |rows| && rows[i].period == PeriodOf(s.rows[n])
    {
      assert PeriodOf(s.rows[n]) in ks;
      var i :| 0 <= i < |ks| && ks[i] == PeriodOf(s.rows[n]);
      assert rows[i].period == ks[i];
    }
    forall i | 0 <= i < |rows|
      ensures PeriodCounted(s, rows[i].period)
    {
      assert ks[i] in ks;
    }
  }

  /** Some respondent of the period is counted in a cell. */
  predicate PeriodCounted(s: Survey, p: Period)
  {
    exists n :: 0 <= n < |s.rows| && Counted(s.rows[n]) && PeriodOf(s.rows[n]) == p
  }

  /** A cell of a file's table is present exactly when someone is in the
      cell that period, and then holds the cell's total weight for it. */
  lemma FileLevelsCell(s: Survey, i: nat, k: nat)
    requires i < |FileLevels(s)| && k < |Cells|
    ensures var c := FileLevels(s)[i].cells[k]; var p := FileLevels(s)[i].period;
      (c.Some? <==> exists n :: 0 <= n < |s.rows| && InStratum(Cells[k], s.rows[n]) && PeriodOf(s.rows[n]) == p) &&
      (c.Some? ==> c.value == StratumTotal(s, Cells[k], p, |s.rows|))
  {
    StratumSumsTotal(s, Cells[k], |s.rows|);
  }

  // ---------------------------------------------------------------------
  // Sorting and the monthly mean (utils/preprocess.py:46-48)
  // ---------------------------------------------------------------------

  /** The rows are in chronological order (ties allowed). */
  predicate RowsSorted(rows: seq<LevelRow>)
  {
    forall i, j :: 0 <= i < j < |rows| ==> !Before(rows[j].period, rows[i].period)
  }

  /** Inserts a row after every row whose period is not later. */
  function InsertRow(r: LevelRow, rows: seq<LevelRow>): (res: seq<LevelRow>)
    requires RowsSorted(rows)
    ensures RowsSorted(res)
    ensures multiset(res) == multiset(rows) + multiset{r}
    ensures forall x :: x in res ==> x == r || x in rows
  {
    if |rows| == 0 then [r]
    else if Before(r.period, rows[0].period) then [r] + rows
    else
      var rest := InsertRow(r, rows[1..]);
      assert rows == [rows[0]] + rows[1..];
      assert forall x :: x in rest ==> !Before(x.period, rows[0].period) by {
        forall x | x in rest
          ensures !Before(x.period, rows[0].period)
        {
          if x != r {
            var k :| 0 <= k < |rows[1..]| && rows[1..][k] == x;
            assert rows[k + 1] == x;
          }
        }
      }
      ConsSorted(rows[0], rest);
      [rows[0]] + rest
  }

  lemma ConsSorted(x: LevelRow, rows: seq<LevelRow>)
    requires RowsSorted(rows)
    requires forall y :: y in rows ==> !Before(y.period, x.period)
    ensures RowsSorted([x] + rows)
  {
    forall i, j | 0 <= i < j < |[x] + rows|
      ensures !Before(([x] + rows)[j].period, ([x] + rows)[i].period)
    {
      assert ([x] + rows)[j] == rows[j - 1];
      if i > 0 {
        assert ([x] + rows)[i] == rows[i - 1];
      }
    }
  }

  /** `sort_index()`: the rows in chronological order, rows of the same
      period in the order they were concatenated. */
  function SortRows(rows: seq<LevelRow>): (res: seq<LevelRow>)
    ensures RowsSorted(res)
    ensures multiset(res) == multiset(rows)
  {
    if |rows| == 0 then []
    else
      assert rows == rows[..|rows| - 1] + [rows[|rows| - 1]];
      InsertRow(rows[|rows| - 1], SortRows(rows[..|rows| - 1]))
  }

  /** The distinct periods of the first n rows, sorted. */
  function PeriodsOf(rows: seq<LevelRow>, n: nat): (ks: seq<Period>)
    requires n <= |rows|
    ensures StrictlySorted(ks)
    ensures forall p :: p in ks <==> exists i :: 0 <= i < n && rows[i].period == p
  {
    if n == 0 then [] else InsertPeriod(rows[n - 1].period, PeriodsOf(rows, n - 1))
  }

  /** Entry c of a row, missing when the row is shorter. */
  function CellAt(r: LevelRow, c: nat): Option<real>
  {
    if c < |r.cells| then r.cells[c] else None
  }

  /** The sum and the number of the present entries of column c among the
      first n rows of period p. */
  function PresentSum(rows: seq<LevelRow>, p: Period, c: nat, n: nat): real
    requires n <= |rows|
  {
    if n == 0 then 0.0
    else PresentSum(rows, p, c, n - 1) + (if rows[n - 1].period == p && CellAt(rows[n - 1], c).Some? then CellAt(rows[n - 1], c).value else 0.0)
  }

  function PresentCount(rows: seq<LevelRow>, p: Period, c: nat, n: nat): (k: nat)
    requires n <= |rows|
    ensures k > 0 <==> exists i :: 0 <= i < n && rows[i].period == p && CellAt(rows[i], c).Some?
    ensures k <= n
  {
    if n == 0 then 0
    else PresentCount(rows, p, c, n - 1) + (if rows[n - 1].period == p && CellAt(rows[n - 1], c).Some? then 1 else 0)
  }

  /** `mean()` of column c over the rows of period p: NaN entries are
      skipped, and a period with none present gives NaN. */
  function MeanCell(rows: seq<LevelRow>, p: Period, c: nat): (m: Option<real>)
    ensures m.Some? <==> exists i :: 0 <= i < |rows| && rows[i].period == p && CellAt(rows[i], c).Some?
    ensures m.Some? ==> m.value * (PresentCount(rows, p, c, |rows|) as real) == PresentSum(rows, p, c, |rows|)
  {
    var k := PresentCount(rows, p, c, |rows|);
    if k == 0 then None else Some(PresentSum(rows, p, c, |rows|) / (k as real))
  }

  /** `groupby(date_set).mean()` over w columns: one row per distinct
      period, in chronological order. */
  function Collapse(rows: seq<LevelRow>, w: nat): (res: seq<LevelRow>)
    ensures forall i :: 0 <= i < |res| ==> |res[i].cells| == w
  {
    var ks := PeriodsOf(rows, |rows|);
    seq(|ks|, i requires 0 <= i < |ks| => LevelRow(ks[i], seq(w, c requires 0 <= c < w => MeanCell(rows, ks[i], c))))
  }

  /** The collapsed table has each period of the input once, in order. */
  lemma CollapsePeriods(rows: seq<LevelRow>, w: nat)
    ensures var res := Collapse(rows, w);
      (forall i, j :: 0 <= i < j < |res| ==> Before(res[i].period, res[j].period)) &&
      (forall i :: 0 <= i < |res| ==> HasPeriod(rows, res[i].period)) &&
      (forall n :: 0 <= n < |rows| ==> exists i :: 0 <= i < |res| && res[i].period == rows[n].period)
  {
    var res := Collapse(rows, w);
    var ks := PeriodsOf(rows, |rows|);
    assert |res| == |ks| && forall i :: 0 <= i < |res| ==> res[i].period == ks[i];
    forall n | 0 <= n < |rows|
      ensures exists i :: 0 <= i < |res| && res[i].period == rows[n].period
    {
      assert rows[n].period in ks;
      var i :| 0 <= i < |ks| && ks[i] == rows[n].period;
      assert res[i].period == ks[i];
    }
    forall i | 0 <= i < |res|
      ensures HasPeriod(rows, res[i].period)
    {
      assert ks[i] in ks;
    }
  }

  /** Some row is of period p. */
  predicate HasPeriod(rows: seq<LevelRow>, p: Period)
  {
    exists n :: 0 <= n < |rows| && rows[n].period == p
  }

  /** A period held by a single row keeps that row's entries: the mean of
      one value is the value. */
  lemma {:induction false} MeanOfSingleRow(rows: seq<LevelRow>, j: nat, c: nat, n: nat)
    requires j < n <= |rows|
    requires forall i :: 0 <= i < n && i != j ==> rows[i].period != rows[j].period
    ensures CellAt(rows[j], c).Some? ==>
      PresentSum(rows, rows[j].period, c, n) == CellAt(rows[j], c).value && PresentCount(rows, rows[j].period, c, n) == 1
    ensures CellAt(rows[j], c).None? ==> PresentCount(rows, rows[j].period, c, n) == 0
  {
    var p := rows[j].period;
    if n - 1 == j {
      NoOtherRow(rows, p, c, j);
    } else {
      MeanOfSingleRow(rows, j, c, n - 1);
    }
  }

  /** Without rows of period p among the first n, nothing is summed. */
  lemma {:induction false} NoOtherRow(rows: seq<LevelRow>, p: Period, c: nat, n: nat)
    requires n <= |rows|
    requires forall i :: 0 <= i < n ==> rows[i].period != p
    ensures PresentSum(rows, p, c, n) == 0.0 && PresentCount(rows, p, c, n) == 0
  {
    if n > 0 {
      NoOtherRow(rows, p, c, n - 1);
    }
  }

  /** With distinct periods, the monthly mean keeps every entry. */
  lemma CollapseKeepsDistinct(rows: seq<LevelRow>, j: nat, c: nat)
    requires j < |rows|
    requires forall i :: 0 <= i < |rows| && i != j ==> rows[i].period != rows[j].period
    ensures MeanCell(rows, rows[j].period, c) == CellAt(rows[j], c)
  {
    MeanOfSingleRow(rows, j, c, |rows|);
    if CellAt(rows[j], c).Some? {
      assert PresentSum(rows, rows[j].period, c, |rows|) / 1.0 == CellAt(rows[j], c).value;
    }
  }

  // ---------------------------------------------------------------------
  // trimestre_movil (utils/preprocess.py:97-105)
  // ---------------------------------------------------------------------

  /** Gregorian leap years (`calendar.isleap`). */
  predicate Leap(y: int)
  {
    y % 4 == 0 && (y % 100 != 0 || y % 400 == 0)
  }

  /** The number of days of a month (`calendar.monthrange(y, m)[-1]`). */
  function DaysInMonth(y: int, m: int): (d: int)
    requires 1 <= m <= 12
    ensures 28 <= d <= 31
    ensures m == 2 ==> (d == 29 <==> Leap(y)) && (d == 28 <==> !Leap(y))
  {
    if m == 2 then (if Leap(y) then 29 else 28)
    else if m == 4 || m == 6 || m == 9 || m == 11 then 30
    else 31
  }

  /** The months of a year add up to the year's length. */
  lemma YearLength(y: int)
    ensures DaysInMonth(y, 1) + DaysInMonth(y, 2) + DaysInMonth(y, 3) + DaysInMonth(y, 4) +
      DaysInMonth(y, 5) + DaysInMonth(y, 6) + DaysInMonth(y, 7) + DaysInMonth(y, 8) +
      DaysInMonth(y, 9) + DaysInMonth(y, 10) + DaysInMonth(y, 11) + DaysInMonth(y, 12)
      == if Leap(y) then 366 else 365
  {
  }

  /** `monthrange` raises ValueError for a month outside 1..12 (any year is
      accepted). */
  function MonthDays(p: Period): (r: Result<int>)
    ensures r.Ok? <==> 1 <= p.1 <= 12
    ensures r.Ok? ==> r.value == DaysInMonth(p.0, p.1)
    ensures r.Err? ==> r.error == ValueError
  {
    if 1 <= p.1 <= 12 then Ok(DaysInMonth(p.0, p.1)) else Err(ValueError)
  }

  predicate ValidMonths(rows: seq<LevelRow>)
  {
    forall t :: 0 <= t < |rows| ==> 1 <= rows[t].period.1 <= 12
  }

  /** The `dias_mes` column: the days of each row's month. */
  function DaysColumn(rows: seq<LevelRow>): (r: Result<seq<int>>)
    ensures r.Ok? <==> ValidMonths(rows)
    ensures r.Err? ==> r.error == ValueError
    ensures r.Ok? ==> (|r.value| == |rows| &&
      forall t :: 0 <= t < |rows| ==> r.value[t] == DaysInMonth(rows[t].period.0, rows[t].period.1))
  {
    if ValidMonths(rows) then Ok(seq(|rows|, t requires 0 <= t < |rows| => DaysInMonth(rows[t].period.0, rows[t].period.1)))
    else Err(ValueError)
  }

  predicate PositiveDays(days: seq<int>)
  {
    forall t :: 0 <= t < |days| ==> days[t] > 0
  }

  /** Entry c of row t of the moving quarter: the day-weighted mean of the
      rows before, at and after t, NaN when any of the three is missing
      (`shift` leaves the first and last rows without a neighbour). */
  function Smoothed(rows: seq<LevelRow>, days: seq<int>, t: nat, c: nat): (m: Option<real>)
    requires |days| == |rows| && PositiveDays(days) && t < |rows|
    ensures m.Some? <==> (1 <= t < |rows| - 1 &&
      CellAt(rows[t - 1], c).Some? && CellAt(rows[t], c).Some? && CellAt(rows[t + 1], c).Some?)
    ensures m.Some? ==> (m.value * ((days[t - 1] + days[t] + days[t + 1]) as real) ==
      CellAt(rows[t - 1], c).value * (days[t - 1] as real) + CellAt(rows[t], c).value * (days[t] as real) +
      CellAt(rows[t + 1], c).value * (days[t + 1] as real))
  {
    if 1 <= t < |rows| - 1 && CellAt(rows[t - 1], c).Some? && CellAt(rows[t], c).Some? && CellAt(rows[t + 1], c).Some? then
      var weighted := CellAt(rows[t + 1], c).value * (days[t + 1] as real) + CellAt(rows[t], c).value * (days[t] as real) +
        CellAt(rows[t - 1], c).value * (days[t - 1] as real);
      Some(weighted / ((days[t + 1] + days[t] + days[t - 1]) as real))
    else None
  }

  /** Row t of the moving quarter over w columns. */
  function SmoothedRow(rows: seq<LevelRow>, days: seq<int>, w: nat, t: nat): (r: LevelRow)
    requires |days| == |rows| && PositiveDays(days) && t < |rows|
    ensures r.period == rows[t].period && |r.cells| == w
    ensures forall c :: 0 <= c < w ==> r.cells[c] == Smoothed(rows, days, t, c)
  {
    LevelRow(rows[t].period, seq(w, c requires 0 <= c < w => Smoothed(rows, days, t, c)))
  }

  /** A row with some entry present. */
  predicate NonEmpty(r: LevelRow)
  {
    exists c :: 0 <= c < |r.cells| && r.cells[c].Some?
  }

  /** The positions, in increasing order, of the first n rows that have an
      entry (`dropna(how='all')`). */
  function KeptRows(sm: seq<LevelRow>, n: nat): (ks: seq<nat>)
    requires n <= |sm|
    ensures forall i :: 0 <= i < |ks| ==> ks[i] < n && NonEmpty(sm[ks[i]])
    ensures forall i, j :: 0 <= i < j < |ks| ==> ks[i] < ks[j]
    ensures forall t :: 0 <= t < n && NonEmpty(sm[t]) ==> t in ks
  {
    if n == 0 then []
    else if NonEmpty(sm[n - 1]) then KeptRows(sm, n - 1) + [n - 1]
    else KeptRows(sm, n - 1)
  }

  /** The smoothed table before rows without entries are dropped. */
  function SmoothedRows(rows: seq<LevelRow>, days: seq<int>, w: nat): (sm: seq<LevelRow>)
    requires |days| == |rows| && PositiveDays(days)
    ensures |sm| == |rows|
    ensures forall t :: 0 <= t < |rows| ==> sm[t] == SmoothedRow(rows, days, w, t)
  {
    seq(|rows|, t requires 0 <= t < |rows| => SmoothedRow(rows, days, w, t))
  }

  /** What `trimestre_movil` returns for a table of w value columns. */
  function MovingAverage(rows: seq<LevelRow>, w: nat): (r: Result<seq<LevelRow>>)
    ensures r.Ok? <==> ValidMonths(rows)
    ensures r.Err? ==> r.error == ValueError
  {
    match DaysColumn(rows)
    case Err(e) => Err(e)
    case Ok(days) =>
      var sm := SmoothedRows(rows, days, w);
      var ks := KeptRows(sm, |sm|);
      Ok(seq(|ks|, i requires 0 <= i < |ks| => sm[ks[i]]))
  }

  /** The moving quarter keeps, in order, the rows strictly between the
      first and the last that have an entry with both neighbours present;
      each entry is the day-weighted mean of its three rows. */
  lemma MovingAverageRows(rows: seq<LevelRow>, w: nat)
    requires ValidMonths(rows)
    ensures var days := DaysColumn(rows).value; var res := MovingAverage(rows, w).value;
      PositiveDays(days) &&
      exists ks: seq<nat> ::
        |ks| == |res| &&
        (forall i :: 0 <= i < |ks| ==> 1 <= ks[i] < |rows| - 1 && res[i] == SmoothedRow(rows, days, w, ks[i])) &&
        (forall i, j :: 0 <= i < j < |ks| ==> ks[i] < ks[j]) &&
        (forall t :: 0 <= t < |rows| && NonEmpty(SmoothedRow(rows, days, w, t)) ==> t in ks)
  {
    var days := DaysColumn(rows).value;
    var sm := SmoothedRows(rows, days, w);
    var ks := KeptRows(sm, |sm|);
    forall i | 0 <= i < |ks|
      ensures 1 <= ks[i] < |rows| - 1
    {
      var c :| 0 <= c < |sm[ks[i]].cells| && sm[ks[i]].cells[c].Some?;
      assert Smoothed(rows, days, ks[i], c).Some?;
    }
  }

  /** A frame of level rows with w value columns; `days` is its `dias_mes`
      column once trimestre_movil has added it. */
  class LevelFrame {
    var rows: seq<LevelRow>
    var width: nat
    var days: Option<seq<int>>

    constructor(rows: seq<LevelRow>, width: nat)
      ensures this.rows == rows && this.width == width && days == None
    {
      this.rows := rows;
      this.width := width;
      days := None;
    }
  }

  /** `trimestre_movil(nivel)`: returns the moving quarter and, as a side
      effect, stores the `dias_mes` column in `nivel` (only once every month
      is valid: the column is built before it is assigned). */
  method TrimestreMovil(nivel: LevelFrame) returns (r: Result<seq<LevelRow>>)
    modifies nivel`days
    ensures r == MovingAverage(nivel.rows, nivel.width)
    ensures r.Ok? ==> nivel.days == Some(DaysColumn(nivel.rows).value)
    ensures r.Err? ==> nivel.days == old(nivel.days)
  {
    var rows := nivel.rows;
    var days: seq<int> := [];
    for t := 0 to |rows|
      invariant |days| == t
      invariant forall k :: 0 <= k < t ==> 1 <= rows[k].period.1 <= 12 && days[k] == DaysInMonth(rows[k].period.0, rows[k].period.1)
    {
      var m := MonthDays(rows[t].period);
      if m.Err? {
        return Err(m.error);
      }
      days := days + [m.value];
    }
    assert days == DaysColumn(rows).value;
    nivel.days := Some(days);
    var sm := SmoothedRows(rows, days, nivel.width);
    var ks := KeptRows(sm, |sm|);
    r := Ok(seq(|ks|, i requires 0 <= i < |ks| => sm[ks[i]]));
  }

  // ---------------------------------------------------------------------
  // Totals and rates (utils/preprocess.py:49-67)
  // ---------------------------------------------------------------------

  /** The totals `groupby_cae` adds to each row of the moving quarter. */
  datatype Totals = Totals(period: Period, d: real, o: real, dh: real, dm: real, oh: real, om: real,
                           fh: real, fm: real, ft: real, tdh: Ratio, tdm: Ratio, td: Ratio)

  /** An entry as `sum(axis=1)` counts it: NaN adds nothing. */
  function Level(c: Option<real>): real
  {
    if c.Some? then c.value else 0.0
  }

  /** A rate in percent, `(a / b) * 100` on float64 columns: NaN or an
      infinity when b is 0. */
  function Rate(a: real, b: real): (r: Ratio)
    ensures r.Finite? <==> b != 0.0
    ensures r.Finite? ==> r.value * b == 100.0 * a
  {
    match Divide(a, b)
    case Finite(v) => Finite(100.0 * v)
    case NonFinite => NonFinite
  }

  /** The totals of a row whose entries follow the column order of Cells
      (oh15, om15, oh25, om25, dh15, dm15, dh25, dm25). */
  function TotalsOf(r: LevelRow): (t: Totals)
    ensures t.period == r.period
  {
    var c := (k: nat) => Level(CellAt(r, k));
    var d := c(4) + c(5) + c(6) + c(7);
    var o := c(0) + c(1) + c(2) + c(3);
    var dh := c(4) + c(6);
    var dm := c(5) + c(7);
    var oh := c(0) + c(2);
    var om := c(1) + c(3);
    var fh := dh + oh;
    var fm := dm + om;
    var ft := fh + fm;
    Totals(r.period, d, o, dh, dm, oh, om, fh, fm, ft, Rate(dh, fh), Rate(dm, fm), Rate(d, ft))
  }

  /** The totals agree with each other: the labour force is the unemployed
      plus the employed, by sex and overall, and the sexes add up. */
  lemma TotalsConsistent(r: LevelRow)
    ensures var t := TotalsOf(r);
      t.d == t.dh + t.dm && t.o == t.oh + t.om && t.ft == t.d + t.o &&
      t.fh == t.dh + t.oh && t.fm == t.dm + t.om && t.ft == t.fh + t.fm
  {
  }

  /** An unemployment rate of non-negative levels is a percentage. */
  lemma RateIsPercentage(a: real, b: real)
    requires 0.0 <= a <= b && b > 0.0
    ensures 0.0 <= Rate(a, b).value <= 100.0
  {
  }

  /** The overall rate lies between the rates of men and women. */
  lemma TotalRateBetween(r: LevelRow)
    requires TotalsOf(r).fh > 0.0 && TotalsOf(r).fm > 0.0
    ensures var t := TotalsOf(r);
      (t.tdh.value <= t.td.value <= t.tdm.value) || (t.tdm.value <= t.td.value <= t.tdh.value)
  {
    var t := TotalsOf(r);
    TotalsConsistent(r);
    Mediant(t.dh, t.fh, t.dm, t.fm, t.tdh.value, t.tdm.value, t.td.value);
  }

  /** If u = 100a/x and v = 100b/y with x, y > 0, then 100(a+b)/(x+y) lies
      between u and v. */
  lemma Mediant(a: real, x: real, b: real, y: real, u: real, v: real, w: real)
    requires x > 0.0 && y > 0.0
    requires u * x == 100.0 * a && v * y == 100.0 * b && w * (x + y) == 100.0 * (a + b)
    ensures (u <= w <= v) || (v <= w <= u)
  {
    var z := x + y;
    assert w * z == u * x + v * y;
    if u <= v {
      assert u * z <= w * z by {
        assert u * z == u * x + u * y;
        assert u * y <= v * y;
      }
      assert w * z <= v * z by {
        assert v * z == v * x + v * y;
        assert u * x <= v * x;
      }
      ScaleOrder(u, w, z);
      ScaleOrder(w, v, z);
    } else {
      assert v * z <= w * z by {
        assert v * z == v * x + v * y;
        assert v * x <= u * x;
      }
      assert w * z <= u * z by {
        assert u * z == u * x + u * y;
        assert v * y <= u * y;
      }
      ScaleOrder(v, w, z);
      ScaleOrder(w, u, z);
    }
  }

  lemma ScaleOrder(p: real, q: real, z: real)
    requires z > 0.0 && p * z <= q * z
    ensures p <= q
  {
  }

  // ---------------------------------------------------------------------
  // groupby_cae (utils/preprocess.py:21-76)
  // ---------------------------------------------------------------------

  /** The level rows of the files, concatenated in file order. The files
      are read with a column list that leaves `fact_cal` out, so every
      respondent weighs 1. */
  function Concatenated(files: seq<seq<Respondent>>): seq<LevelRow>
  {
    if |files| == 0 then []
    else Concatenated(files[..|files| - 1]) + FileLevels(Survey(files[|files| - 1], false))
  }

  /** The level table before the moving quarter: sorted, and for monthly
      files reduced to one mean row per period. */
  function LevelTable(tipo: string, files: seq<seq<Respondent>>): seq<LevelRow>
  {
    var sorted := SortRows(Concatenated(files));
    if tipo == "mensual" then Collapse(sorted, |Cells|) else sorted
  }

  /** The table `groupby_cae(tipo)` writes, before the merge with the
      previous monthly output and the rounding; None when there are no
      files. */
  function GroupbyCaeTable(tipo: string, files: seq<seq<Respondent>>): (r: Result<Option<seq<Totals>>>)
    ensures tipo != "anual" && tipo != "mensual" ==> r == Err(ValueError)
    ensures (tipo == "anual" || tipo == "mensual") && |files| == 0 ==> r == Ok(None)
    ensures r.Err? ==> r.error == ValueError
  {
    if tipo != "anual" && tipo != "mensual" then Err(ValueError)
    else if |files| == 0 then Ok(None)
    else
      match MovingAverage(LevelTable(tipo, files), |Cells|)
      case Err(e) => Err(e)
      case Ok(rows) => Ok(Some(seq(|rows|, i requires 0 <= i < |rows| => TotalsOf(rows[i]))))
  }

  /** `groupby_cae(tipo)` over the files the directory listing returns. */
  method GroupbyCae(tipo: string, files: seq<seq<Respondent>>) returns (r: Result<Option<seq<Totals>>>)
    ensures r == GroupbyCaeTable(tipo, files)
  {
    if tipo != "anual" && tipo != "mensual" {
      return Err(ValueError);
    }
    if |files| == 0 {
      return Ok(None);
    }
    var agg: seq<LevelRow> := [];
    for i := 0 to |files|
      invariant agg == Concatenated(files[..i])
    {
      assert files[..i + 1][..i] == files[..i];
      agg := agg + FileLevels(Survey(files[i], false));
    }
    assert files[..|files|] == files;
    agg := SortRows(agg);
    if tipo == "mensual" {
      agg := Collapse(agg, |Cells|);
    }
    var nivel := new LevelFrame(agg, |Cells|);
    var m := TrimestreMovil(nivel);
    match m
    case Err(e) =>
      r := Err(e);
    case Ok(rows) =>
      r := Ok(Some(seq(|rows|, i requires 0 <= i < |rows| => TotalsOf(rows[i]))));
  }

  /** Every counted respondent of every file has a month in 1..12. */
  predicate MonthsValid(files: seq<seq<Respondent>>)
  {
    forall f, n :: 0 <= f < |files| && 0 <= n < |files[f]| && Counted(files[f][n]) ==> 1 <= files[f][n].month <= 12
  }

  /** Some file has a counted respondent of period p. */
  predicate CountedIn(files: seq<seq<Respondent>>, p: Period)
  {
    exists f, n :: 0 <= f < |files| && 0 <= n < |files[f]| && Counted(files[f][n]) && PeriodOf(files[f][n]) == p
  }

  /** Every period of the concatenated rows is that of a counted
      respondent. */
  lemma {:induction false} ConcatenatedSound(files: seq<seq<Respondent>>)
    ensures forall i :: 0 <= i < |Concatenated(files)| ==> CountedIn(files, Concatenated(files)[i].period)
  {
    if |files| > 0 {
      var init := files[..|files| - 1];
      var last := Survey(files[|files| - 1], false);
      ConcatenatedSound(init);
      FileLevelsPeriods(last);
      var a := Concatenated(init);
      var b := FileLevels(last);
      forall i | 0 <= i < |a|
        ensures CountedIn(files, a[i].period)
      {
        CountedInPrefix(files, a[i].period);
      }
      forall i | 0 <= i < |b|
        ensures CountedIn(files, b[i].period)
      {
        assert PeriodCounted(last, b[i].period);
        var n :| 0 <= n < |last.rows| && Counted(last.rows[n]) && PeriodOf(last.rows[n]) == b[i].period;
        assert files[|files| - 1][n] == last.rows[n];
      }
      assert Concatenated(files) == a + b;
    }
  }

  lemma CountedInPrefix(files: seq<seq<Respondent>>, p: Period)
    requires |files| > 0 && CountedIn(files[..|files| - 1], p)
    ensures CountedIn(files, p)
  {
    var init := files[..|files| - 1];
    var f, n :| 0 <= f < |init| && 0 <= n < |init[f]| && Counted(init[f][n]) && PeriodOf(init[f][n]) == p;
    assert files[f] == init[f];
  }

  /** Every counted respondent's period has a concatenated row. */
  lemma {:induction false} ConcatenatedComplete(files: seq<seq<Respondent>>)
    ensures forall f, n :: 0 <= f < |files| && 0 <= n < |files[f]| && Counted(files[f][n]) ==>
      HasPeriod(Concatenated(files), PeriodOf(files[f][n]))
  {
    if |files| > 0 {
      var init := files[..|files| - 1];
      var last := Survey(files[|files| - 1], false);
      ConcatenatedComplete(init);
      FileLevelsPeriods(last);
      var a := Concatenated(init);
      var b := FileLevels(last);
      assert Concatenated(files) == a + b;
      forall f, n | 0 <= f < |files| && 0 <= n < |files[f]| && Counted(files[f][n])
        ensures HasPeriod(a + b, PeriodOf(files[f][n]))
      {
        if f < |init| {
          assert files[f] == init[f];
        } else {
          assert files[f] == last.rows;
        }
        HasPeriodAppend(a, b, PeriodOf(files[f][n]));
      }
    }
  }

  lemma HasPeriodAppend(a: seq<LevelRow>, b: seq<LevelRow>, p: Period)
    requires HasPeriod(a, p) || HasPeriod(b, p)
    ensures HasPeriod(a + b, p)
  {
    if HasPeriod(a, p) {
      var i :| 0 <= i < |a| && a[i].period == p;
      assert (a + b)[i] == a[i];
    } else {
      var i :| 0 <= i < |b| && b[i].period == p;
      assert (a + b)[|a| + i] == b[i];
    }
  }

  /** Every period of a is a period of b, and the other way round. */
  predicate SamePeriods(a: seq<LevelRow>, b: seq<LevelRow>)
  {
    (forall i :: 0 <= i < |a| ==> HasPeriod(b, a[i].period)) &&
    (forall n :: 0 <= n < |b| ==> HasPeriod(a, b[n].period))
  }

  lemma PermutationPeriods(a: seq<LevelRow>, b: seq<LevelRow>)
    requires multiset(a) == multiset(b)
    ensures SamePeriods(a, b)
  {
    forall i | 0 <= i < |a|
      ensures HasPeriod(b, a[i].period)
    {
      assert a[i] in multiset(b);
      var n :| 0 <= n < |b| && b[n] == a[i];
    }
    forall n | 0 <= n < |b|
      ensures HasPeriod(a, b[n].period)
    {
      assert b[n] in multiset(a);
      var i :| 0 <= i < |a| && a[i] == b[n];
    }
  }

  lemma SamePeriodsTrans(a: seq<LevelRow>, b: seq<LevelRow>, c: seq<LevelRow>)
    requires SamePeriods(a, b) && SamePeriods(b, c)
    ensures SamePeriods(a, c)
  {
    forall i | 0 <= i < |a|
      ensures HasPeriod(c, a[i].period)
    {
      var k :| 0 <= k < |b| && b[k].period == a[i].period;
    }
    forall n | 0 <= n < |c|
      ensures HasPeriod(a, c[n].period)
    {
      var k :| 0 <= k < |b| && b[k].period == c[n].period;
    }
  }

  /** The table before the moving quarter has the periods of the counted
      respondents, and no other. */
  lemma LevelTablePeriods(tipo: string, files: seq<seq<Respondent>>)
    ensures SamePeriods(LevelTable(tipo, files), Concatenated(files))
  {
    var c := Concatenated(files);
    var sorted := SortRows(c);
    PermutationPeriods(sorted, c);
    if tipo == "mensual" {
      CollapsePeriods(sorted, |Cells|);
      SamePeriodsTrans(Collapse(sorted, |Cells|), sorted, c);
    }
  }

  /** With a valid tipo and at least one file, groupby_cae fails exactly
      when a counted respondent has a month outside 1..12 (`monthrange`). */
  lemma GroupbyCaeFails(tipo: string, files: seq<seq<Respondent>>)
    requires (tipo == "anual" || tipo == "mensual") && |files| > 0
    ensures GroupbyCaeTable(tipo, files).Err? <==> !MonthsValid(files)
    ensures GroupbyCaeTable(tipo, files).Ok? ==> GroupbyCaeTable(tipo, files).value.Some?
  {
    if MonthsValid(files) {
      ValidLevelTable(tipo, files);
    } else {
      InvalidLevelTable(tipo, files);
    }
  }

  lemma ValidLevelTable(tipo: string, files: seq<seq<Respondent>>)
    requires MonthsValid(files)
    ensures ValidMonths(LevelTable(tipo, files))
  {
    ConcatenatedSound(files);
    LevelTablePeriods(tipo, files);
    var c := Concatenated(files);
    var t := LevelTable(tipo, files);
    forall i | 0 <= i < |t|
      ensures 1 <= t[i].period.1 <= 12
    {
      var n :| 0 <= n < |c| && c[n].period == t[i].period;
      assert CountedIn(files, c[n].period);
      var f, m :| 0 <= f < |files| && 0 <= m < |files[f]| && Counted(files[f][m]) && PeriodOf(files[f][m]) == c[n].period;
    }
  }

  lemma InvalidLevelTable(tipo: string, files: seq<seq<Respondent>>)
    requires !MonthsValid(files)
    ensures !ValidMonths(LevelTable(tipo, files))
  {
    ConcatenatedComplete(files);
    LevelTablePeriods(tipo, files);
    var c := Concatenated(files);
    var t := LevelTable(tipo, files);
    var f, n :| 0 <= f < |files| && 0 <= n < |files[f]| && Counted(files[f][n]) && !(1 <= files[f][n].month <= 12);
    var k :| 0 <= k < |c| && c[k].period == PeriodOf(files[f][n]);
    var i :| 0 <= i < |t| && t[i].period == c[k].period;
    assert !(1 <= t[i].period.1 <= 12);
  }

  /** Periods strictly increasing. */
  predicate StrictRows(rows: seq<LevelRow>)
  {
    forall i, j :: 0 <= i < j < |rows| ==> Before(rows[i].period, rows[j].period)
  }

  /** The moving quarter keeps the order of the rows it keeps. */
  lemma MovingAverageOrder(rows: seq<LevelRow>, w: nat)
    requires ValidMonths(rows)
    ensures RowsSorted(rows) ==> RowsSorted(MovingAverage(rows, w).value)
    ensures StrictRows(rows) ==> StrictRows(MovingAverage(rows, w).value)
  {
    var days := DaysColumn(rows).value;
    var sm := SmoothedRows(rows, days, w);
    var ks := KeptRows(sm, |sm|);
    var res := MovingAverage(rows, w).value;
    assert |res| == |ks| && forall i :: 0 <= i < |res| ==> res[i].period == rows[ks[i]].period;
  }

  /** The output rows are in chronological order, and for monthly files
      each period appears once. */
  lemma GroupbyCaeChronological(tipo: string, files: seq<seq<Respondent>>)
    requires GroupbyCaeTable(tipo, files).Ok? && GroupbyCaeTable(tipo, files).value.Some?
    ensures var t := GroupbyCaeTable(tipo, files).value.value;
      (forall i, j :: 0 <= i < j < |t| ==> !Before(t[j].period, t[i].period)) &&
      (tipo == "mensual" ==> forall i, j :: 0 <= i < j < |t| ==> Before(t[i].period, t[j].period))
  {
    var rows := LevelTable(tipo, files);
    var res := MovingAverage(rows, |Cells|).value;
    var t := GroupbyCaeTable(tipo, files).value.value;
    assert |t| == |res| && forall i :: 0 <= i < |t| ==> t[i].period == res[i].period;
    if tipo == "mensual" {
      CollapsePeriods(SortRows(Concatenated(files)), |Cells|);
      assert StrictRows(rows);
    }
    MovingAverageOrder(rows, |Cells|);
  }

  // ---------------------------------------------------------------------
  // nuevos_datos (utils/preprocess.py:107-138)
  // ---------------------------------------------------------------------

  /** Months counted from year 0: (y, m) is month 12y + m - 1. */
  function MonthIndex(p: Period): int
  {
    p.0 * 12 + (p.1 - 1)
  }

  /** The period of a month count. */
  function MonthOf(k: int): (p: Period)
    ensures 1 <= p.1 <= 12 && MonthIndex(p) == k
  {
    (k / 12, k % 12 + 1)
  }

  /** A period with a month in 1..12 is determined by its month count. */
  lemma MonthIndexInjective(p: Period, q: Period)
    requires 1 <= p.1 <= 12 && 1 <= q.1 <= 12 && MonthIndex(p) == MonthIndex(q)
    ensures p == q
  {
  }

  /** `date + pd.DateOffset(months=i)` on the first of a month. */
  function AddMonths(p: Period, i: int): (r: Period)
    ensures 1 <= r.1 <= 12 && MonthIndex(r) == MonthIndex(p) + i
  {
    MonthOf(MonthIndex(p) + i)
  }

  /** The months whose first day a pandas Timestamp can hold (from
      1677-09-21 to 2262-04-11); outside them pandas raises
      OutOfBoundsDatetime, a ValueError. */
  const FirstMonth: Period := (1677, 10)
  const LastMonth: Period := (2262, 4)

  predicate InTimestampRange(p: Period)
  {
    1 <= p.1 <= 12 && MonthIndex(FirstMonth) <= MonthIndex(p) <= MonthIndex(LastMonth)
  }

  /** The month after which downloading resumes: the last (ano, mes) of the
      output file (`pd.to_datetime(..., format='%Y-%m')`), or January 2010
      when there is no output file. */
  function StartMonth(last: Option<Period>): (r: Result<Period>)
    ensures last.None? ==> r == Ok((2010, 1))
    ensures last.Some? ==> (r.Ok? <==> InTimestampRange(last.value))
    ensures last.Some? && r.Ok? ==> r.value == last.value
    ensures r.Ok? ==> InTimestampRange(r.value)
    ensures r.Err? ==> r.error == ValueError
  {
    match last
    case None => Ok((2010, 1))
    case Some(p) => if InTimestampRange(p) then Ok(p) else Err(ValueError)
  }

  /** `trim_movil`: the moving quarter a month is the centre of. */
  const TrimMovil: map<int, string> := map[1 := "def", 2 := "efm", 3 := "fma", 4 := "mam", 5 := "amj", 6 := "mjj",
                                           7 := "jja", 8 := "jas", 9 := "aso", 10 := "son", 11 := "ond", 12 := "nde"]

  /** The Spanish initials of the months, January first. */
  const Initials: string := "efmamjjasond"

  /** Each code is the initials of the month before, the month itself and
      the month after. */
  lemma TrimMovilCodes(m: int)
    requires 1 <= m <= 12
    ensures m in TrimMovil && |TrimMovil[m]| == 3
    ensures TrimMovil[m][0] == Initials[(m + 10) % 12]
    ensures TrimMovil[m][1] == Initials[m - 1]
    ensures TrimMovil[m][2] == Initials[m % 12]
  {
  }

  /** `f"ene-{date.strftime('%Y-%m')}-{trim}.csv"`. */
  function FileName(p: Period): (name: string)
    requires InTimestampRange(p)
    ensures |name| > 8 && name[..4] == "ene-" && name[|name| - 4..] == ".csv"
  {
    "ene-" + Decimal(p.0) + "-" + TwoDigits(p.1) + "-" + TrimMovil[p.1] + ".csv"
  }

  /** The address of a month's file: the INE directory of its year. */
  function Url(p: Period): (url: string)
    requires InTimestampRange(p)
    ensures |url| > |FileName(p)| && url[|url| - |FileName(p)|..] == FileName(p)
  {
    "https://www.ine.gob.cl/docs/default-source/ocupacion-y-desocupacion/bbdd/" + Decimal(p.0) + "/csv/" + FileName(p)
  }

  /** The digits of a number name it: different numbers, different
      strings. */
  lemma {:induction false} DecimalInjective(a: nat, b: nat)
    requires Decimal(a) == Decimal(b)
    ensures a == b
  {
    var da := Decimal(a);
    if a < 10 && b < 10 {
      DigitInjective(a, b);
    } else if a >= 10 && b >= 10 {
      assert Decimal(a / 10) == da[..|da| - 1] == Decimal(b / 10);
      DecimalInjective(a / 10, b / 10);
      DigitInjective(a % 10, b % 10);
    }
  }

  lemma DigitInjective(a: nat, b: nat)
    requires a < 10 && b < 10 && Digit(a) == Digit(b)
    ensures a == b
  {
  }

  /** The year's digits never contain '-'. */
  lemma DecimalHasNoDash(n: nat)
    ensures '-' !in Decimal(n)
  {
  }

  /** Different months have different file names, so no file is checked or
      written for two months. */
  lemma FileNameInjective(p: Period, q: Period)
    requires InTimestampRange(p) && InTimestampRange(q) && FileName(p) == FileName(q)
    ensures p == q
  {
    var a := FileName(p);
    var yp := Decimal(p.0);
    var yq := Decimal(q.0);
    FileNameParts(p);
    FileNameParts(q);
    DecimalHasNoDash(p.0);
    DecimalHasNoDash(q.0);
    assert |yp| == |yq|;
    DecimalInjective(p.0, q.0);
    DigitInjective(p.1 / 10, q.1 / 10);
    DigitInjective(p.1 % 10, q.1 % 10);
  }

  /** Where the year and the month stand in a file name. */
  lemma FileNameParts(p: Period)
    requires InTimestampRange(p)
    ensures var a, y := FileName(p), Decimal(p.0);
      |a| >= 7 + |y| && a[4..4 + |y|] == y && a[4 + |y|] == '-' && a[5 + |y|..7 + |y|] == TwoDigits(p.1)
  {
    var y := Decimal(p.0);
    var a := FileName(p);
    var w := "ene-" + y + "-" + TwoDigits(p.1);
    assert a[..|w|] == w;
    assert w[4..4 + |y|] == y && w[4 + |y|] == '-' && w[5 + |y|..7 + |y|] == TwoDigits(p.1);
  }

  /** An HTTP response: its status code, and whether its body parses as a
      CSV file. */
  datatype Response = Response(status: int, parses: bool)

  /** The download stops at a refused request or an unreadable body. */
  predicate Stops(r: Response)
  {
    r.status != 200 || !r.parses
  }

  /** The months whose files were downloaded, in order, and the month at
      which downloading stopped. */
  datatype Outcome = Outcome(written: seq<Period>, stop: Period)

  /** The result of the loop with the months written before put in front. */
  function Prefixed(written: seq<Period>, r: Result<Outcome>): Result<Outcome>
  {
    match r
    case Err(e) => Err(e)
    case Ok(o) => Ok(Outcome(written + o.written, o.stop))
  }

  lemma PrefixedNothing(r: Result<Outcome>)
    ensures Prefixed([], r) == r
  {
    if r.Ok? {
      assert [] + r.value.written == r.value.written;
    }
  }

  lemma PrefixedTwice(w: seq<Period>, p: Period, r: Result<Outcome>)
    ensures Prefixed(w, Prefixed([p], r)) == Prefixed(w + [p], r)
  {
    if r.Ok? {
      assert w + ([p] + r.value.written) == (w + [p]) + r.value.written;
    }
  }

  /** The loop of `nuevos_datos` from its i-th month on: files already on
      disk (`present`) are skipped, a missing one is requested (`get`) and
      written, until a request fails; a month beyond the Timestamp range
      raises. */
  function Schedule(start: Period, present: string -> bool, get: string -> Response, i: nat): (r: Result<Outcome>)
    decreases MonthIndex(LastMonth) - MonthIndex(start) - i
  {
    var p := AddMonths(start, i);
    if !InTimestampRange(p) then Err(ValueError)
    else if present(FileName(p)) then Schedule(start, present, get, i + 1)
    else if Stops(get(Url(p))) then Ok(Outcome([], p))
    else
      Prefixed([p], Schedule(start, present, get, i + 1))
  }

  /** The loop stops at a month, from i on, whose file is missing and whose
      request fails. */
  lemma {:induction false} ScheduleStop(start: Period, present: string -> bool, get: string -> Response, i: nat)
    requires Schedule(start, present, get, i).Ok?
    ensures var o := Schedule(start, present, get, i).value;
      InTimestampRange(o.stop) && MonthIndex(start) + i <= MonthIndex(o.stop) &&
      !present(FileName(o.stop)) && Stops(get(Url(o.stop)))
    decreases MonthIndex(LastMonth) - MonthIndex(start) - i
  {
    var p := AddMonths(start, i);
    if present(FileName(p)) || !Stops(get(Url(p))) {
      ScheduleStop(start, present, get, i + 1);
    }
  }

  /** The months written from month index lo on come before the stop, in
      increasing order, each with its file missing and its request answered. */
  predicate WrittenFrom(o: Outcome, lo: int, present: string -> bool, get: string -> Response)
  {
    (forall j :: 0 <= j < |o.written| ==>
      InTimestampRange(o.written[j]) && lo <= MonthIndex(o.written[j]) < MonthIndex(o.stop) &&
      !present(FileName(o.written[j])) && !Stops(get(Url(o.written[j])))) &&
    (forall j, k :: 0 <= j < k < |o.written| ==> MonthIndex(o.written[j]) < MonthIndex(o.written[k]))
  }

  /** Writing month p in front of the months written after it. */
  lemma WrittenFromCons(p: Period, rest: Outcome, lo: int, present: string -> bool, get: string -> Response)
    requires WrittenFrom(rest, lo + 1, present, get)
    requires InTimestampRange(p) && MonthIndex(p) == lo < MonthIndex(rest.stop)
    requires !present(FileName(p)) && !Stops(get(Url(p)))
    ensures WrittenFrom(Outcome([p] + rest.written, rest.stop), lo, present, get)
  {
    var w := [p] + rest.written;
    assert forall j :: 0 < j < |w| ==> w[j] == rest.written[j - 1];
  }

  /** The months written, from i on, come before the stop, in increasing
      order, each with its file missing and its request answered. */
  lemma {:induction false} ScheduleWritten(start: Period, present: string -> bool, get: string -> Response, i: nat)
    requires Schedule(start, present, get, i).Ok?
    ensures WrittenFrom(Schedule(start, present, get, i).value, MonthIndex(start) + i, present, get)
    decreases MonthIndex(LastMonth) - MonthIndex(start) - i
  {
    var p := AddMonths(start, i);
    if present(FileName(p)) {
      ScheduleWritten(start, present, get, i + 1);
    } else if !Stops(get(Url(p))) {
      ScheduleWritten(start, present, get, i + 1);
      ScheduleStop(start, present, get, i + 1);
      var rest := Schedule(start, present, get, i + 1).value;
      assert Schedule(start, present, get, i).value == Outcome([p] + rest.written, rest.stop);
      WrittenFromCons(p, rest, MonthIndex(start) + i, present, get);
    }
  }

  /** Every month from i up to the stop whose file is missing is written. */
  lemma {:induction false} ScheduleComplete(start: Period, present: string -> bool, get: string -> Response, i: nat)
    requires Schedule(start, present, get, i).Ok?
    ensures var o := Schedule(start, present, get, i).value;
      forall k :: MonthIndex(start) + i <= k < MonthIndex(o.stop) && InTimestampRange(MonthOf(k)) && !present(FileName(MonthOf(k))) ==>
        MonthOf(k) in o.written
    decreases MonthIndex(LastMonth) - MonthIndex(start) - i
  {
    var p := AddMonths(start, i);
    var o := Schedule(start, present, get, i).value;
    if present(FileName(p)) || !Stops(get(Url(p))) {
      ScheduleComplete(start, present, get, i + 1);
      forall k | MonthIndex(start) + i <= k < MonthIndex(o.stop) && InTimestampRange(MonthOf(k)) && !present(FileName(MonthOf(k)))
        ensures MonthOf(k) in o.written
      {
        if k == MonthIndex(start) + i {
          MonthIndexInjective(MonthOf(k), p);
          assert !present(FileName(p));
          assert o.written == [p] + Schedule(start, present, get, i + 1).value.written;
        } else if !present(FileName(p)) {
          assert o.written == [p] + Schedule(start, present, get, i + 1).value.written;
        }
      }
    }
  }

  /** `nuevos_datos()`: the output file's last period (None when there is
      no output file), the files on disk and the server are parameters. */
  method NuevosDatos(last: Option<Period>, present: string -> bool, get: string -> Response) returns (r: Result<Outcome>)
    ensures StartMonth(last).Err? ==> r == Err(StartMonth(last).error)
    ensures StartMonth(last).Ok? ==> r == Schedule(StartMonth(last).value, present, get, 1)
  {
    var lastDate := StartMonth(last);
    if lastDate.Err? {
      return Err(lastDate.error);
    }
    r := DownloadFrom(lastDate.value, present, get);
  }

  /** The `while True` loop of nuevos_datos, from the month after start. */
  method DownloadFrom(start: Period, present: string -> bool, get: string -> Response) returns (r: Result<Outcome>)
    ensures r == Schedule(start, present, get, 1)
  {
    var written: seq<Period> := [];
    var i: nat := 0;
    PrefixedNothing(Schedule(start, present, get, 1));
    while true
      invariant Schedule(start, present, get, 1) == Prefixed(written, Schedule(start, present, get, i + 1))
      decreases MonthIndex(LastMonth) - MonthIndex(start) - i
    {
      i := i + 1;
      var done;
      done, r, written := VisitMonth(start, present, get, i, written);
      if done {
        return;
      }
    }
  }

  /** One pass of the `while True` loop: month i is skipped, written, or
      ends the loop with the result. */
  method VisitMonth(start: Period, present: string -> bool, get: string -> Response, i: nat, written: seq<Period>)
    returns (done: bool, r: Result<Outcome>, written': seq<Period>)
    requires Schedule(start, present, get, 1) == Prefixed(written, Schedule(start, present, get, i))
    ensures done ==> r == Schedule(start, present, get, 1)
    ensures !done ==> Schedule(start, present, get, 1) == Prefixed(written', Schedule(start, present, get, i + 1))
    ensures !done ==> MonthIndex(start) + i <= MonthIndex(LastMonth)
  {
    var date := AddMonths(start, i);
    ScheduleAt(start, present, get, i);
    written' := written;
    if !InTimestampRange(date) {
      return true, Err(ValueError), written';
    }
    var fileName := FileName(date);
    if !present(fileName) {
      var response := get(Url(date));
      if Stops(response) {
        assert written + [] == written;
        return true, Ok(Outcome(written, date)), written';
      }
      PrefixedTwice(written, date, Schedule(start, present, get, i + 1));
      written' := written + [date];
    }
    done, r := false, Err(ValueError);
  }


  /** One month of the loop: the four ways Schedule goes on from month i. */
  lemma ScheduleAt(start: Period, present: string -> bool, get: string -> Response, i: nat)
    ensures var p := AddMonths(start, i);
      (!InTimestampRange(p) ==> Schedule(start, present, get, i) == Err(ValueError)) &&
      (InTimestampRange(p) && present(FileName(p)) ==>
        Schedule(start, present, get, i) == Schedule(start, present, get, i + 1)) &&
      (InTimestampRange(p) && !present(FileName(p)) && Stops(get(Url(p))) ==>
        Schedule(start, present, get, i) == Ok(Outcome([], p))) &&
      (InTimestampRange(p) && !present(FileName(p)) && !Stops(get(Url(p))) ==>
        Schedule(start, present, get, i) == Prefixed([p], Schedule(start, present, get, i + 1)))
  {
  }

}
