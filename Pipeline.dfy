/**
 * `calculate_data`: the derived columns added to one region's rows, as a
 * pure specification (`Calculate`) and as the in-place update of a data
 * frame (`RegionFrame.CalculateData`), with the properties of each column.
 */
module Pipeline {
  import opened Wrappers
  import opened Series
  import opened Table

  /** `REF_TAMP`: the reference daily swab volume for normalised cases. */
  const RefTamp: int := 9000
  /** Window of the rolling means of the count columns. */
  const CountWindow: nat := 7
  /** Window of the rolling means of the two percentages. */
  const PercentWindow: nat := 3

  /** The names of the columns `calculate_data` adds to the frame. */
  datatype ColumnName =
    | TerapiaIntensivaAvg
    | NuoviDecessi
    | DeltaCasiTestati
    | IncrTamponi
    | PercPositiviTamponi
    | PercPositiviTest
    | NuoviPositiviAvg
    | NuoviDecessiAvg
    | TotaleOspedalizzatiAvg
    | PercPositiviTamponiAvg
    | PercPositiviTestAvg
    | NuoviCasiNorm
  {
    /** The column label in the data frame. */
    function Label(): string
    {
      match this
      case TerapiaIntensivaAvg => "terapia_intensiva_avg"
      case NuoviDecessi => "nuovi_decessi"
      case DeltaCasiTestati => "delta_casi_testati"
      case IncrTamponi => "incr_tamponi"
      case PercPositiviTamponi => "perc_positivi_tamponi"
      case PercPositiviTest => "perc_positivi_test"
      case NuoviPositiviAvg => "nuovi_positivi_avg"
      case NuoviDecessiAvg => "nuovi_decessi_avg"
      case TotaleOspedalizzatiAvg => "totale_ospedalizzati_avg"
      case PercPositiviTamponiAvg => "perc_positivi_tamponi_avg"
      case PercPositiviTestAvg => "perc_positivi_test_avg"
      case NuoviCasiNorm => "nuovi_casi_norm"
    }
  }

  /** The twelve columns `calculate_data` adds. */
  datatype Derived = Derived(
    terapiaIntensivaAvg: Column,
    nuoviDecessi: Column,
    deltaCasiTestati: Column,
    incrTamponi: Column,
    percPositiviTamponi: Column,
    percPositiviTest: Column,
    nuoviPositiviAvg: Column,
    nuoviDecessiAvg: Column,
    totaleOspedalizzatiAvg: Column,
    percPositiviTamponiAvg: Column,
    percPositiviTestAvg: Column,
    nuoviCasiNorm: Column)
  {
    /** Every column has one entry per row. */
    predicate Aligned(n: nat)
    {
      && |terapiaIntensivaAvg| == n && |nuoviDecessi| == n && |deltaCasiTestati| == n
      && |incrTamponi| == n && |percPositiviTamponi| == n && |percPositiviTest| == n
      && |nuoviPositiviAvg| == n && |nuoviDecessiAvg| == n && |totaleOspedalizzatiAvg| == n
      && |percPositiviTamponiAvg| == n && |percPositiviTestAvg| == n && |nuoviCasiNorm| == n
    }

    /** Adding the columns to a frame is assigning them one by one. */
    lemma AddedToFrame(frame: map<ColumnName, Column>)
      ensures frame + Columns() == frame
        [TerapiaIntensivaAvg := terapiaIntensivaAvg]
        [NuoviDecessi := nuoviDecessi]
        [DeltaCasiTestati := deltaCasiTestati]
        [IncrTamponi := incrTamponi]
        [PercPositiviTamponi := percPositiviTamponi]
        [PercPositiviTest := percPositiviTest]
        [NuoviPositiviAvg := nuoviPositiviAvg]
        [NuoviDecessiAvg := nuoviDecessiAvg]
        [TotaleOspedalizzatiAvg := totaleOspedalizzatiAvg]
        [PercPositiviTamponiAvg := percPositiviTamponiAvg]
        [PercPositiviTestAvg := percPositiviTestAvg]
        [NuoviCasiNorm := nuoviCasiNorm]
    {
    }

    /** The columns under the names the data frame gives them. */
    function Columns(): map<ColumnName, Column>
    {
      map[
        TerapiaIntensivaAvg := terapiaIntensivaAvg,
        NuoviDecessi := nuoviDecessi,
        DeltaCasiTestati := deltaCasiTestati,
        IncrTamponi := incrTamponi,
        PercPositiviTamponi := percPositiviTamponi,
        PercPositiviTest := percPositiviTest,
        NuoviPositiviAvg := nuoviPositiviAvg,
        NuoviDecessiAvg := nuoviDecessiAvg,
        TotaleOspedalizzatiAvg := totaleOspedalizzatiAvg,
        PercPositiviTamponiAvg := percPositiviTamponiAvg,
        PercPositiviTestAvg := percPositiviTestAvg,
        NuoviCasiNorm := nuoviCasiNorm]
    }
  }

  /** `data[f]` read as a float column. */
  function RawColumn(rows: seq<Row>, f: Field): (c: Column)
    ensures |c| == |rows| && AllDefined(c)
  {
    Lift(Counts(rows, f))
  }

  // Each derived column, as `calculate_data` computes it from the rows.

  function TerapiaIntensivaAvgColumn(rows: seq<Row>): Column
  {
    RollingMean(RawColumn(rows, TerapiaIntensiva), CountWindow)
  }

  function NuoviDecessiColumn(rows: seq<Row>): Column
  {
    Diff(RawColumn(rows, Deceduti))
  }

  function DeltaCasiTestatiColumn(rows: seq<Row>): Column
  {
    Diff(RawColumn(rows, CasiTestati))
  }

  function IncrTamponiColumn(rows: seq<Row>): Column
  {
    Diff(RawColumn(rows, Tamponi))
  }

  function PercPositiviTamponiColumn(rows: seq<Row>): Column
  {
    Scale(Ratio(RawColumn(rows, NuoviPositivi), IncrTamponiColumn(rows)), 100.0)
  }

  function PercPositiviTestColumn(rows: seq<Row>): Column
  {
    Scale(Ratio(RawColumn(rows, NuoviPositivi), DeltaCasiTestatiColumn(rows)), 100.0)
  }

  function NuoviPositiviAvgColumn(rows: seq<Row>): Column
  {
    RollingMean(RawColumn(rows, NuoviPositivi), CountWindow)
  }

  function NuoviDecessiAvgColumn(rows: seq<Row>): Column
  {
    RollingMean(NuoviDecessiColumn(rows), CountWindow)
  }

  function TotaleOspedalizzatiAvgColumn(rows: seq<Row>): Column
  {
    RollingMean(RawColumn(rows, TotaleOspedalizzati), CountWindow)
  }

  function PercPositiviTamponiAvgColumn(rows: seq<Row>): Column
  {
    RollingMean(PercPositiviTamponiColumn(rows), PercentWindow)
  }

  function PercPositiviTestAvgColumn(rows: seq<Row>): Column
  {
    RollingMean(PercPositiviTestColumn(rows), PercentWindow)
  }

  function NuoviCasiNormColumn(rows: seq<Row>): Column
  {
    Ratio(Scale(RawColumn(rows, NuoviPositivi), RefTamp as real), IncrTamponiColumn(rows))
  }

  /** The derived columns of one region's rows, one entry per row. */
  function Calculate(rows: seq<Row>): (d: Derived)
    ensures d.Aligned(|rows|)
  {
    Derived(
      terapiaIntensivaAvg := TerapiaIntensivaAvgColumn(rows),
      nuoviDecessi := NuoviDecessiColumn(rows),
      deltaCasiTestati := DeltaCasiTestatiColumn(rows),
      incrTamponi := IncrTamponiColumn(rows),
      percPositiviTamponi := PercPositiviTamponiColumn(rows),
      percPositiviTest := PercPositiviTestColumn(rows),
      nuoviPositiviAvg := NuoviPositiviAvgColumn(rows),
      nuoviDecessiAvg := NuoviDecessiAvgColumn(rows),
      totaleOspedalizzatiAvg := TotaleOspedalizzatiAvgColumn(rows),
      percPositiviTamponiAvg := PercPositiviTamponiAvgColumn(rows),
      percPositiviTestAvg := PercPositiviTestAvgColumn(rows),
      nuoviCasiNorm := NuoviCasiNormColumn(rows))
  }

  // ---------------------------------------------------------------------
  // What each derived column holds

  /** A cumulative count's increment on row `i`; on the first row, the count itself. */
  function DailyIncrement(x: seq<int>, i: nat): int
    requires i < |x|
  {
    if i == 0 then x[0] else x[i] - x[i - 1]
  }

  /** Differencing a complete column of counts gives its daily increments. */
  lemma DiffOfCounts(x: seq<int>, i: nat)
    requires i < |x|
    ensures Diff(Lift(x))[i] == Some(DailyIncrement(x, i) as real)
  {
    var c := Lift(x);
    if i > 0 {
      assert c[i] == Some(x[i] as real) && c[i - 1] == Some(x[i - 1] as real);
    } else {
      assert c[0] == Some(x[0] as real);
    }
  }

  function SumInts(s: seq<int>): int
  {
    if s == [] then 0 else SumInts(s[..|s| - 1]) + s[|s| - 1]
  }

  lemma {:induction false} SumOfLift(s: seq<int>)
    ensures SumDefined(Lift(s)) == SumInts(s) as real
  {
    if s != [] {
      assert Lift(s)[..|s| - 1] == Lift(s[..|s| - 1]);
      SumOfLift(s[..|s| - 1]);
    }
  }

  /** The three differenced columns hold the daily increments of their cumulative counts. */
  lemma DiffColumnsAreDailyIncrements(rows: seq<Row>, i: nat)
    requires i < |rows|
    ensures NuoviDecessiColumn(rows)[i] == Some(DailyIncrement(Counts(rows, Deceduti), i) as real)
    ensures DeltaCasiTestatiColumn(rows)[i] == Some(DailyIncrement(Counts(rows, CasiTestati), i) as real)
    ensures IncrTamponiColumn(rows)[i] == Some(DailyIncrement(Counts(rows, Tamponi), i) as real)
  {
    DiffOfCounts(Counts(rows, Deceduti), i);
    DiffOfCounts(Counts(rows, CasiTestati), i);
    DiffOfCounts(Counts(rows, Tamponi), i);
  }

  /** Cumulative deaths `[5, 5, 7, 7, 10]` give new deaths `[5, 0, 2, 0, 3]`. */
  lemma NewDeathsExample(rows: seq<Row>)
    requires Counts(rows, Deceduti) == [5, 5, 7, 7, 10]
    ensures NuoviDecessiColumn(rows) == Lift([5, 0, 2, 0, 3])
  {
    var d := NuoviDecessiColumn(rows);
    forall i | 0 <= i < 5
      ensures d[i] == Lift([5, 0, 2, 0, 3])[i]
    {
      DiffColumnsAreDailyIncrements(rows, i);
    }
  }

  /** `num / diff(cum) * 100` at row `i`, on complete count columns. */
  lemma PercentOfCounts(num: seq<int>, cum: seq<int>, i: nat)
    requires |num| == |cum| && i < |num|
    ensures Scale(Ratio(Lift(num), Diff(Lift(cum))), 100.0)[i] ==
              if DailyIncrement(cum, i) == 0 then None
              else Some(num[i] as real / DailyIncrement(cum, i) as real * 100.0)
  {
    DiffOfCounts(cum, i);
    assert Lift(num)[i] == Some(num[i] as real);
  }

  /**
   * The positive percentage of a row is `nuovi_positivi` over that day's
   * swabs (or people tested), times 100; it is missing on a day with none.
   */
  lemma PercentPositive(rows: seq<Row>, i: nat)
    requires i < |rows|
    ensures var swabs := DailyIncrement(Counts(rows, Tamponi), i);
            PercPositiviTamponiColumn(rows)[i] ==
              if swabs == 0 then None else Some(rows[i].nuoviPositivi as real / swabs as real * 100.0)
    ensures var tested := DailyIncrement(Counts(rows, CasiTestati), i);
            PercPositiviTestColumn(rows)[i] ==
              if tested == 0 then None else Some(rows[i].nuoviPositivi as real / tested as real * 100.0)
  {
    var np := Counts(rows, NuoviPositivi);
    assert np[i] == rows[i].nuoviPositivi;
    PercentOfCounts(np, Counts(rows, Tamponi), i);
    PercentOfCounts(np, Counts(rows, CasiTestati), i);
  }

  /** Scaling to `REF_TAMP` swabs is 90 times the percentage. */
  lemma NormalisedIsNinetyTimesPercent(positives: real, swabs: real)
    requires swabs != 0.0
    ensures positives * RefTamp as real / swabs == positives / swabs * 100.0 * 90.0
  {
  }

  /**
   * The normalised case count is the day's positives scaled to `REF_TAMP`
   * swabs, `nuovi_positivi * 9000 / incr_tamponi`; it is missing exactly when
   * the positive percentage is, and otherwise 90 times it.
   */
  lemma NormalisedCases(rows: seq<Row>, i: nat)
    requires i < |rows|
    ensures var swabs := DailyIncrement(Counts(rows, Tamponi), i);
            NuoviCasiNormColumn(rows)[i] ==
              if swabs == 0 then None else Some(rows[i].nuoviPositivi as real * RefTamp as real / swabs as real)
    ensures NuoviCasiNormColumn(rows)[i].Some? <==> PercPositiviTamponiColumn(rows)[i].Some?
    ensures NuoviCasiNormColumn(rows)[i].Some? ==>
              NuoviCasiNormColumn(rows)[i].value == PercPositiviTamponiColumn(rows)[i].value * 90.0
  {
    var sw := Counts(rows, Tamponi);
    var np := Lift(Counts(rows, NuoviPositivi));
    DiffOfCounts(sw, i);
    assert np[i] == Some(rows[i].nuoviPositivi as real);
    PercentPositive(rows, i);
    var swabs := DailyIncrement(sw, i);
    if swabs != 0 {
      NormalisedIsNinetyTimesPercent(rows[i].nuoviPositivi as real, swabs as real);
    }
  }

  /** The 7-day mean of a complete column of counts. */
  lemma CountAverage(c: seq<int>, i: nat)
    requires i < |c|
    ensures RollingMean(Lift(c), CountWindow)[i].Some? <==> i >= CountWindow - 1
    ensures i >= CountWindow - 1 ==>
              RollingMean(Lift(c), CountWindow)[i].value == SumInts(c[i + 1 - CountWindow..i + 1]) as real / 7.0
  {
    if i >= CountWindow - 1 {
      var lo := i + 1 - CountWindow;
      assert Lift(c)[lo..i + 1] == Lift(c[lo..i + 1]);
      SumOfLift(c[lo..i + 1]);
    }
  }

  /**
   * The 7-day means of the count columns start on the seventh row and are
   * the sum of the last seven counts over seven.
   */
  lemma CountAverages(rows: seq<Row>, i: nat)
    requires i < |rows|
    ensures TerapiaIntensivaAvgColumn(rows)[i].Some? <==> i >= CountWindow - 1
    ensures NuoviPositiviAvgColumn(rows)[i].Some? <==> i >= CountWindow - 1
    ensures TotaleOspedalizzatiAvgColumn(rows)[i].Some? <==> i >= CountWindow - 1
    ensures i >= CountWindow - 1 ==>
              && TerapiaIntensivaAvgColumn(rows)[i].value ==
                   SumInts(Counts(rows, TerapiaIntensiva)[i + 1 - CountWindow..i + 1]) as real / 7.0
              && NuoviPositiviAvgColumn(rows)[i].value ==
                   SumInts(Counts(rows, NuoviPositivi)[i + 1 - CountWindow..i + 1]) as real / 7.0
              && TotaleOspedalizzatiAvgColumn(rows)[i].value ==
                   SumInts(Counts(rows, TotaleOspedalizzati)[i + 1 - CountWindow..i + 1]) as real / 7.0
  {
    CountAverage(Counts(rows, TerapiaIntensiva), i);
    CountAverage(Counts(rows, NuoviPositivi), i);
    CountAverage(Counts(rows, TotaleOspedalizzati), i);
  }

  lemma SumOfDiffWindow(x: Column, lo: nat, hi: nat)
    requires AllDefined(x) && 0 < lo < hi <= |x|
    ensures SumDefined(Diff(x)[lo..hi]) == x[hi - 1].value - x[lo - 1].value
  {
    var d := Diff(x);
    assert d[..hi] == d[..lo] + d[lo..hi];
    SumDefinedAppend(d[..lo], d[lo..hi]);
    SumOfDiffPrefix(x, hi - 1);
    SumOfDiffPrefix(x, lo - 1);
  }

  /** The 7-day mean of the daily increments of a cumulative count telescopes. */
  lemma IncrementAverage(c: seq<int>, i: nat)
    requires i < |c|
    ensures RollingMean(Diff(Lift(c)), CountWindow)[i].Some? <==> i >= CountWindow - 1
    ensures i == CountWindow - 1 ==>
              RollingMean(Diff(Lift(c)), CountWindow)[i].value == c[i] as real / 7.0
    ensures i >= CountWindow ==>
              RollingMean(Diff(Lift(c)), CountWindow)[i].value == (c[i] - c[i - CountWindow]) as real / 7.0
  {
    var x := Lift(c);
    var d := Diff(x);
    assert AllDefined(d);
    if i >= CountWindow - 1 {
      var lo := i + 1 - CountWindow;
      assert AllDefined(d[lo..i + 1]);
      if lo == 0 {
        assert d[..i + 1] == d[lo..i + 1];
        SumOfDiffPrefix(x, i);
      } else {
        SumOfDiffWindow(x, lo, i + 1);
        assert x[lo - 1] == Some(c[lo - 1] as real);
      }
    }
  }

  /**
   * The 7-day mean of new deaths telescopes: it is the growth of the
   * cumulative deaths over the last seven rows, divided by seven (on the
   * seventh row, the cumulative count itself).
   */
  lemma NewDeathsAverage(rows: seq<Row>, i: nat)
    requires i < |rows|
    ensures NuoviDecessiAvgColumn(rows)[i].Some? <==> i >= CountWindow - 1
    ensures i == CountWindow - 1 ==>
              NuoviDecessiAvgColumn(rows)[i].value == rows[i].deceduti as real / 7.0
    ensures i >= CountWindow ==>
              NuoviDecessiAvgColumn(rows)[i].value ==
                (rows[i].deceduti - rows[i - CountWindow].deceduti) as real / 7.0
  {
    var c := Counts(rows, Deceduti);
    IncrementAverage(c, i);
    assert c[i] == rows[i].deceduti;
    if i >= CountWindow {
      assert c[i - CountWindow] == rows[i - CountWindow].deceduti;
    }
  }

  /** The 3-day mean of `num / diff(cum) * 100` exists on rows whose window has an increment on each day. */
  lemma PercentAverage(num: seq<int>, cum: seq<int>, i: nat)
    requires |num| == |cum| && i < |num|
    ensures RollingMean(Scale(Ratio(Lift(num), Diff(Lift(cum))), 100.0), PercentWindow)[i].Some? <==>
              i >= PercentWindow - 1 && forall j | i + 1 - PercentWindow <= j <= i :: DailyIncrement(cum, j) != 0
  {
    var p := Scale(Ratio(Lift(num), Diff(Lift(cum))), 100.0);
    forall j | 0 <= j < |num|
      ensures p[j].Some? <==> DailyIncrement(cum, j) != 0
    {
      PercentOfCounts(num, cum, j);
    }
    RollingMeanDefined(p, PercentWindow, i);
  }

  /**
   * The 3-day mean of a positive percentage exists from the third row on,
   * on rows whose window has swabs (people tested) on each of its three days.
   */
  lemma PercentAverages(rows: seq<Row>, i: nat)
    requires i < |rows|
    ensures PercPositiviTamponiAvgColumn(rows)[i].Some? <==>
              i >= PercentWindow - 1 &&
              forall j | i + 1 - PercentWindow <= j <= i :: DailyIncrement(Counts(rows, Tamponi), j) != 0
    ensures PercPositiviTestAvgColumn(rows)[i].Some? <==>
              i >= PercentWindow - 1 &&
              forall j | i + 1 - PercentWindow <= j <= i :: DailyIncrement(Counts(rows, CasiTestati), j) != 0
  {
    PercentAverage(Counts(rows, NuoviPositivi), Counts(rows, Tamponi), i);
    PercentAverage(Counts(rows, NuoviPositivi), Counts(rows, CasiTestati), i);
  }

  /**
   * Each percentage's 3-day mean is 100 times the 3-day mean of the plain
   * ratio of positives to the day's swabs (people tested).
   */
  lemma PercentAverageIsScaledRatioAverage(rows: seq<Row>)
    ensures PercPositiviTamponiAvgColumn(rows) ==
              Scale(RollingMean(Ratio(RawColumn(rows, NuoviPositivi), IncrTamponiColumn(rows)), PercentWindow), 100.0)
    ensures PercPositiviTestAvgColumn(rows) ==
              Scale(RollingMean(Ratio(RawColumn(rows, NuoviPositivi), DeltaCasiTestatiColumn(rows)), PercentWindow), 100.0)
  {
    RollingMeanOfScale(Ratio(RawColumn(rows, NuoviPositivi), IncrTamponiColumn(rows)), PercentWindow, 100.0);
    RollingMeanOfScale(Ratio(RawColumn(rows, NuoviPositivi), DeltaCasiTestatiColumn(rows)), PercentWindow, 100.0);
  }

  /**
   * 100 positives a day over 1000 new swabs a day: the positive percentage
   * is 10 on every row, and its 3-day mean is 10 from the third row on.
   */
  lemma ConstantPositivityExample(rows: seq<Row>)
    requires forall i | 0 <= i < |rows| :: rows[i].nuoviPositivi == 100 && rows[i].tamponi == 1000 * (i + 1)
    ensures forall i | 0 <= i < |rows| :: PercPositiviTamponiColumn(rows)[i] == Some(10.0)
    ensures forall i | 0 <= i < |rows| ::
              PercPositiviTamponiAvgColumn(rows)[i] == if i < 2 then None else Some(10.0)
  {
    var p := PercPositiviTamponiColumn(rows);
    forall i | 0 <= i < |rows|
      ensures p[i] == Some(10.0)
    {
      var sw := Counts(rows, Tamponi);
      if i > 0 {
        assert sw[i] == 1000 * (i + 1) && sw[i - 1] == 1000 * i;
      } else {
        assert sw[0] == 1000;
      }
      TenPercentDay(rows, i);
    }
    RollingMeanOfConstant(p, PercentWindow, 10.0);
  }

  lemma TenPercentDay(rows: seq<Row>, i: nat)
    requires i < |rows| && rows[i].nuoviPositivi == 100 && DailyIncrement(Counts(rows, Tamponi), i) == 1000
    ensures PercPositiviTamponiColumn(rows)[i] == Some(10.0)
  {
    var np := Counts(rows, NuoviPositivi);
    assert np[i] == 100;
    PercentOfCounts(np, Counts(rows, Tamponi), i);
    assert 100 as real / 1000 as real * 100.0 == 10.0;
  }

  /**
   * A day without new swabs is a gap: its positive percentage and normalised
   * count are missing, and so is the 3-day mean of each window that covers it.
   */
  lemma ZeroSwabDay(rows: seq<Row>, k: nat)
    requires k < |rows| && DailyIncrement(Counts(rows, Tamponi), k) == 0
    ensures PercPositiviTamponiColumn(rows)[k].None?
    ensures NuoviCasiNormColumn(rows)[k].None?
    ensures forall i | k <= i < |rows| && i < k + PercentWindow :: PercPositiviTamponiAvgColumn(rows)[i].None?
  {
    PercentPositive(rows, k);
    NormalisedCases(rows, k);
    forall i | k <= i < |rows| && i < k + PercentWindow
      ensures PercPositiviTamponiAvgColumn(rows)[i].None?
    {
      RollingMeanMissingSpreads(PercPositiviTamponiColumn(rows), PercentWindow, k, i);
    }
  }

  /**
   * The data frame of one region: its raw rows and the columns added to it.
   * `calculate_data` works on a copy of the filtered rows and assigns the new
   * columns to it one after another.
   */
  class RegionFrame {
    var rows: seq<Row>
    var columns: map<ColumnName, Column>

    constructor (rows: seq<Row>)
      ensures this.rows == rows && columns == map[]
    {
      this.rows := rows;
      columns := map[];
    }

    /**
     * Adds the derived columns in the order `calculate_data` assigns them;
     * later columns read the ones assigned before them back from the frame.
     * The rows are left as they are and any other column is kept.
     */
    method CalculateData()
      modifies this`columns
      ensures columns == old(columns) + Calculate(rows).Columns()
    {
      var data := rows;
      ghost var spec := Calculate(data);
      var cols := columns;
      cols := cols[TerapiaIntensivaAvg := RollingMean(RawColumn(data, TerapiaIntensiva), CountWindow)];
      cols := cols[NuoviDecessi := Diff(RawColumn(data, Deceduti))];

      cols := cols[DeltaCasiTestati := Diff(RawColumn(data, CasiTestati))];
      cols := cols[IncrTamponi := Diff(RawColumn(data, Tamponi))];
      cols := cols[PercPositiviTamponi := Scale(Ratio(RawColumn(data, NuoviPositivi), cols[IncrTamponi]), 100.0)];
      cols := cols[PercPositiviTest := Scale(Ratio(RawColumn(data, NuoviPositivi), cols[DeltaCasiTestati]), 100.0)];

      cols := cols[NuoviPositiviAvg := RollingMean(RawColumn(data, NuoviPositivi), CountWindow)];
      cols := cols[NuoviDecessiAvg := RollingMean(cols[NuoviDecessi], CountWindow)];
      cols := cols[TotaleOspedalizzatiAvg := RollingMean(RawColumn(data, TotaleOspedalizzati), CountWindow)];
      cols := cols[PercPositiviTamponiAvg := RollingMean(cols[PercPositiviTamponi], PercentWindow)];
      cols := cols[PercPositiviTestAvg := RollingMean(cols[PercPositiviTest], PercentWindow)];

      cols := cols[NuoviCasiNorm := Ratio(Scale(RawColumn(data, NuoviPositivi), RefTamp as real), cols[IncrTamponi])];

      columns := cols;

      assert columns == old(columns)
        [TerapiaIntensivaAvg := TerapiaIntensivaAvgColumn(data)]
        [NuoviDecessi := NuoviDecessiColumn(data)]
        [DeltaCasiTestati := DeltaCasiTestatiColumn(data)]
        [IncrTamponi := IncrTamponiColumn(data)]
        [PercPositiviTamponi := PercPositiviTamponiColumn(data)]
        [PercPositiviTest := PercPositiviTestColumn(data)]
        [NuoviPositiviAvg := NuoviPositiviAvgColumn(data)]
        [NuoviDecessiAvg := NuoviDecessiAvgColumn(data)]
        [TotaleOspedalizzatiAvg := TotaleOspedalizzatiAvgColumn(data)]
        [PercPositiviTamponiAvg := PercPositiviTamponiAvgColumn(data)]
        [PercPositiviTestAvg := PercPositiviTestAvgColumn(data)]
        [NuoviCasiNorm := NuoviCasiNormColumn(data)];
      spec.AddedToFrame(old(columns));
    }
  }
}
