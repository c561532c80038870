/**
 * Column arithmetic of a pandas float Series, with the missing value (NaN,
 * and the infinities a division by zero produces) made explicit as `None`.
 * Values are exact reals: no floating-point rounding is modelled.
 */
module Series {
  import opened Wrappers

  /** One column of a data frame, row by row. */
  type Column = seq<Option<real>>

  /** A column read from integer counts: every entry is present. */
  function Lift(x: seq<int>): (c: Column)
    ensures |c| == |x|
    ensures forall i {:trigger c[i]} | 0 <= i < |x| :: c[i] == Some(x[i] as real)
  {
    seq(|x|, i requires 0 <= i < |x| => Some(x[i] as real))
  }

  predicate AllDefined(s: Column)
  {
    forall j | 0 <= j < |s| :: s[j].Some?
  }

  /** Number of non-missing entries (pandas' `nobs` inside a window). */
  function CountDefined(s: Column): (n: nat)
    ensures n <= |s|
  {
    if s == [] then 0
    else CountDefined(s[..|s| - 1]) + (if s[|s| - 1].Some? then 1 else 0)
  }

  /** Sum of the non-missing entries (pandas skips NaN when summing). */
  function SumDefined(s: Column): real
  {
    if s == [] then 0.0
    else SumDefined(s[..|s| - 1]) + (if s[|s| - 1].Some? then s[|s| - 1].value else 0.0)
  }

  lemma {:induction false} CountDefinedAll(s: Column)
    ensures CountDefined(s) == |s| <==> AllDefined(s)
  {
    if s != [] {
      CountDefinedAll(s[..|s| - 1]);
      if AllDefined(s) {
        assert AllDefined(s[..|s| - 1]);
      } else if AllDefined(s[..|s| - 1]) {
        assert s[|s| - 1].None?;
      }
    }
  }

  lemma {:induction false} SumDefinedAppend(a: Column, b: Column)
    ensures SumDefined(a + b) == SumDefined(a) + SumDefined(b)
  {
    if b != [] {
      assert (a + b)[..|a + b| - 1] == a + b[..|b| - 1];
      SumDefinedAppend(a, b[..|b| - 1]);
    } else {
      assert a + b == a;
    }
  }

  // ---------------------------------------------------------------------
  // First differences: `X.diff().fillna(X)`

  /** Difference of two entries; missing when either one is. */
  function Sub(a: Option<real>, b: Option<real>): Option<real>
  {
    if a.Some? && b.Some? then Some(a.value - b.value) else None
  }

  /** Entry `i` of pandas' `diff()`: row 0 has no predecessor, so it is missing there. */
  function DiffAt(x: Column, i: nat): Option<real>
    requires i < |x|
  {
    if i == 0 then None else Sub(x[i], x[i - 1])
  }

  /** pandas' `diff()`. */
  function PandasDiff(x: Column): Column
  {
    seq(|x|, i requires 0 <= i < |x| => DiffAt(x, i))
  }

  /** pandas' `fillna(x)`: every missing entry of `d` is replaced by the entry of `x` in that row. */
  function FillNa(d: Column, x: Column): Column
    requires |d| == |x|
  {
    seq(|d|, i requires 0 <= i < |d| => if d[i].Some? then d[i] else x[i])
  }

  /**
   * The daily increments of a cumulative column. Row 0 keeps the raw value
   * (the predecessor is treated as zero); a row whose difference is missing
   * keeps its raw entry as well.
   */
  function Diff(x: Column): (r: Column)
    ensures |r| == |x|
    ensures |x| > 0 ==> r[0] == x[0]
    ensures forall i {:trigger r[i]} | 0 < i < |x| && x[i].Some? && x[i - 1].Some? :: r[i] == Some(x[i].value - x[i - 1].value)
    ensures forall i {:trigger r[i]} | 0 < i < |x| && !(x[i].Some? && x[i - 1].Some?) :: r[i] == x[i]
  {
    FillNa(PandasDiff(x), x)
  }

  /**
   * Running total of the non-missing entries (pandas' `cumsum()`); a missing
   * entry stays missing. The inverse of `Diff` on complete columns.
   */
  function CumSum(d: Column): (c: Column)
    ensures |c| == |d|
  {
    seq(|d|, i requires 0 <= i < |d| => RunningTotal(d, i))
  }

  /** Entry `i` of `CumSum`: the total of the non-missing entries up to row `i`. */
  function RunningTotal(d: Column, i: nat): Option<real>
    requires i < |d|
  {
    if d[i].Some? then Some(SumDefined(d[..i + 1])) else None
  }

  lemma {:induction false} SumOfDiffPrefix(x: Column, i: nat)
    requires AllDefined(x) && i < |x|
    ensures SumDefined(Diff(x)[..i + 1]) == x[i].value
  {
    var d := Diff(x);
    assert d[..i + 1][..i] == d[..i];
    if i > 0 {
      SumOfDiffPrefix(x, i - 1);
    } else {
      assert d[..i] == [];
    }
  }

  /** Summing the daily increments gives back the cumulative column. */
  lemma DiffThenCumSum(x: Column)
    requires AllDefined(x)
    ensures AllDefined(Diff(x))
    ensures CumSum(Diff(x)) == x
  {
    forall i | 0 <= i < |x|
      ensures CumSum(Diff(x))[i] == x[i]
    {
      SumOfDiffPrefix(x, i);
    }
  }

  lemma SumDefinedStep(d: Column, i: nat)
    requires 0 < i < |d| && d[i].Some?
    ensures SumDefined(d[..i + 1]) == SumDefined(d[..i]) + d[i].value
  {
    var p := d[..i + 1];
    assert p[..|p| - 1] == d[..i];
  }

  lemma CumSumThenDiffAt(d: Column, i: nat)
    requires AllDefined(d) && i < |d|
    ensures Diff(CumSum(d))[i] == d[i]
  {
    var c := CumSum(d);
    if i == 0 {
      assert d[..1][..0] == [];
      assert SumDefined(d[..1]) == d[0].value;
      assert c[0] == Some(SumDefined(d[..1]));
    } else {
      SumDefinedStep(d, i);
      assert c[i] == Some(SumDefined(d[..i + 1]));
      assert c[i - 1] == Some(SumDefined(d[..i]));
    }
  }

  /** Differencing a running total gives back the daily entries. */
  lemma CumSumThenDiff(d: Column)
    requires AllDefined(d)
    ensures AllDefined(CumSum(d))
    ensures Diff(CumSum(d)) == d
  {
    forall i | 0 <= i < |d|
      ensures Diff(CumSum(d))[i] == d[i]
    {
      CumSumThenDiffAt(d, i);
    }
  }

  // ---------------------------------------------------------------------
  // Trailing rolling mean: `X.rolling(w).mean()`

  /** The rows pandas' trailing window of width `w` covers at row `i`. */
  function Window(x: Column, i: nat, w: nat): (win: Column)
    requires w > 0 && i < |x|
    ensures 0 < |win| <= i + 1
    ensures w <= i + 1 ==> win == x[i + 1 - w..i + 1]
  {
    x[(if w <= i + 1 then i + 1 - w else 0)..i + 1]
  }

  /**
   * pandas' windowed mean: the mean of the non-missing entries, provided at
   * least `minPeriods` of them are present, and missing otherwise.
   */
  function WindowMean(win: Column, minPeriods: nat): Option<real>
    requires minPeriods > 0
  {
    var n := CountDefined(win);
    if n >= minPeriods then Some(SumDefined(win) / n as real) else None
  }

  lemma WindowMeanDefault(x: Column, i: nat, w: nat)
    requires w > 0 && i < |x|
    ensures WindowMean(Window(x, i, w), w).Some? <==> w <= i + 1 && AllDefined(x[i + 1 - w..i + 1])
    ensures w <= i + 1 && AllDefined(x[i + 1 - w..i + 1]) ==>
              WindowMean(Window(x, i, w), w) == Some(SumDefined(x[i + 1 - w..i + 1]) / w as real)
  {
    var win := Window(x, i, w);
    CountDefinedAll(win);
    if w > i + 1 {
      assert |win| < w;
    }
  }

  /**
   * `rolling(w).mean()` with pandas' default `min_periods = w`: missing
   * until a full window exists and whenever the window holds a missing entry,
   * otherwise the mean of the last `w` entries.
   */
  function RollingMean(x: Column, w: nat): (r: Column)
    requires w > 0
    ensures |r| == |x|
    ensures forall i {:trigger r[i]} | 0 <= i < |x| :: r[i].Some? <==> w <= i + 1 && AllDefined(x[i + 1 - w..i + 1])
    ensures forall i {:trigger r[i]} | 0 <= i < |x| && w <= i + 1 && AllDefined(x[i + 1 - w..i + 1]) ::
              r[i] == Some(SumDefined(x[i + 1 - w..i + 1]) / w as real)
  {
    var r := seq(|x|, i requires 0 <= i < |x| => WindowMean(Window(x, i, w), w));
    assert forall i | 0 <= i < |x| :: r[i].Some? <==> w <= i + 1 && AllDefined(x[i + 1 - w..i + 1]) by {
      forall i | 0 <= i < |x| { WindowMeanDefault(x, i, w); }
    }
    assert forall i | 0 <= i < |x| && w <= i + 1 && AllDefined(x[i + 1 - w..i + 1]) ::
             r[i] == Some(SumDefined(x[i + 1 - w..i + 1]) / w as real) by {
      forall i | 0 <= i < |x| { WindowMeanDefault(x, i, w); }
    }
    r
  }

  lemma {:induction false} SumDefinedConstant(s: Column, c: real)
    requires forall j | 0 <= j < |s| :: s[j] == Some(c)
    ensures SumDefined(s) == |s| as real * c
  {
    if s != [] {
      SumDefinedConstant(s[..|s| - 1], c);
    }
  }

  /** A constant column has that constant as its mean once a full window exists. */
  lemma RollingMeanOfConstant(x: Column, w: nat, c: real)
    requires w > 0
    requires forall j | 0 <= j < |x| :: x[j] == Some(c)
    ensures forall i | 0 <= i < |x| :: RollingMean(x, w)[i] == if i + 1 < w then None else Some(c)
  {
    forall i | 0 <= i < |x| && w <= i + 1
      ensures RollingMean(x, w)[i] == Some(c)
    {
      RollingMeanOfConstantAt(x, w, c, i);
    }
  }

  lemma RollingMeanOfConstantAt(x: Column, w: nat, c: real, i: nat)
    requires 0 < w <= i + 1 && i < |x|
    requires forall j | 0 <= j < |x| :: x[j] == Some(c)
    ensures RollingMean(x, w)[i] == Some(c)
  {
    var win := x[i + 1 - w..i + 1];
    assert AllDefined(win);
    assert RollingMean(x, w)[i] == Some(SumDefined(win) / w as real);
    SumDefinedConstant(win, c);
    assert SumDefined(win) == w as real * c;
    MeanOfCopies(w, c);
  }

  lemma MeanOfCopies(n: nat, c: real)
    requires n > 0
    ensures n as real * c / n as real == c
  {
  }

  /** The rolling mean at row `i` exists exactly when a full window of present entries ends there. */
  lemma RollingMeanDefined(x: Column, w: nat, i: nat)
    requires w > 0 && i < |x|
    ensures RollingMean(x, w)[i].Some? <==> w <= i + 1 && forall j | i + 1 - w <= j <= i :: x[j].Some?
  {
    if w <= i + 1 {
      var win := x[i + 1 - w..i + 1];
      assert forall j | i + 1 - w <= j <= i :: win[j - (i + 1 - w)] == x[j];
    }
  }

  lemma {:induction false} SumDefinedBounds(s: Column, lo: real, hi: real)
    requires AllDefined(s)
    requires forall j | 0 <= j < |s| :: lo <= s[j].value <= hi
    ensures |s| as real * lo <= SumDefined(s) <= |s| as real * hi
  {
    if s != [] {
      SumDefinedBounds(s[..|s| - 1], lo, hi);
    }
  }

  /** A defined rolling mean lies between the smallest and largest entry of its window. */
  lemma RollingMeanWithinWindow(x: Column, w: nat, i: nat, lo: real, hi: real)
    requires w > 0 && i < |x|
    requires RollingMean(x, w)[i].Some?
    requires forall j | i + 1 - w <= j <= i :: lo <= x[j].value <= hi
    ensures lo <= RollingMean(x, w)[i].value <= hi
  {
    var win := x[i + 1 - w..i + 1];
    SumDefinedBounds(win, lo, hi);
    var s := SumDefined(win);
    assert w as real * lo <= s <= w as real * hi;
    assert RollingMean(x, w)[i].value == s / w as real;
  }

  lemma SumDefinedSlide(x: Column, w: nat, i: nat)
    requires w > 0 && w <= i < |x|
    requires x[i - w].Some? && x[i].Some?
    ensures SumDefined(x[i + 1 - w..i + 1]) == SumDefined(x[i - w..i]) - x[i - w].value + x[i].value
  {
    var mid := x[i + 1 - w..i];
    var first, last := [x[i - w]], [x[i]];
    assert x[i - w..i] == first + mid;
    assert x[i + 1 - w..i + 1] == mid + last;
    SumDefinedAppend(first, mid);
    SumDefinedAppend(mid, last);
    assert first[..0] == [] && last[..0] == [];
  }

  /**
   * Moving the window one row on: the mean gains the entering entry and loses
   * the leaving one, each weighted by 1/w.
   */
  lemma RollingMeanSlide(x: Column, w: nat, i: nat)
    requires w > 0 && w <= i < |x|
    requires RollingMean(x, w)[i - 1].Some? && RollingMean(x, w)[i].Some?
    ensures x[i - w].Some? && x[i].Some?
    ensures RollingMean(x, w)[i].value ==
            RollingMean(x, w)[i - 1].value + (x[i].value - x[i - w].value) / w as real
  {
    var r := RollingMean(x, w);
    var prev, cur := x[i - w..i], x[i + 1 - w..i + 1];
    assert AllDefined(prev) && AllDefined(cur);
    assert prev[0] == x[i - w] && cur[w - 1] == x[i];
    SumDefinedSlide(x, w, i);
    var sp, sc := SumDefined(prev), SumDefined(cur);
    assert r[i - 1].value == sp / w as real;
    assert r[i].value == sc / w as real;
    DivideSum(sp, x[i].value - x[i - w].value, w as real);
  }

  lemma DivideSum(a: real, b: real, w: real)
    requires w != 0.0
    ensures (a + b) / w == a / w + b / w
  {
  }

  /** A missing entry makes every mean whose window covers it missing. */
  lemma RollingMeanMissingSpreads(x: Column, w: nat, k: nat, i: nat)
    requires w > 0 && k <= i < |x| && i < k + w
    requires x[k].None?
    ensures RollingMean(x, w)[i].None?
  {
    if w <= i + 1 {
      assert x[i + 1 - w..i + 1][k - (i + 1 - w)] == x[k];
    }
  }

  // ---------------------------------------------------------------------
  // Element-wise arithmetic

  /**
   * Element-wise `num / den`. A missing operand or a zero denominator (where
   * pandas yields NaN or an infinity) gives a missing entry.
   */
  function Ratio(num: Column, den: Column): (r: Column)
    requires |num| == |den|
    ensures |r| == |num|
    ensures forall i {:trigger r[i]} | 0 <= i < |r| :: r[i].Some? <==> num[i].Some? && den[i].Some? && den[i].value != 0.0
    ensures forall i {:trigger r[i]} | 0 <= i < |r| && r[i].Some? :: r[i].value * den[i].value == num[i].value
  {
    seq(|num|, i requires 0 <= i < |num| =>
      if num[i].Some? && den[i].Some? && den[i].value != 0.0 then Some(num[i].value / den[i].value) else None)
  }

  /** Element-wise `c * k`; a missing entry stays missing. */
  function Scale(c: Column, k: real): (r: Column)
    ensures |r| == |c|
    ensures forall i {:trigger r[i]} | 0 <= i < |r| :: r[i].Some? <==> c[i].Some?
    ensures forall i {:trigger r[i]} | 0 <= i < |r| && c[i].Some? :: r[i].value == c[i].value * k
  {
    seq(|c|, i requires 0 <= i < |c| => if c[i].Some? then Some(c[i].value * k) else None)
  }

  // ---------------------------------------------------------------------
  // Scaling and the rolling mean commute

  lemma {:induction false} SumDefinedScale(s: Column, k: real)
    ensures SumDefined(Scale(s, k)) == SumDefined(s) * k
  {
    if s != [] {
      var init := s[..|s| - 1];
      ScaleSlice(s, k, 0, |s| - 1);
      SumDefinedScale(init, k);
      var last := if s[|s| - 1].Some? then s[|s| - 1].value else 0.0;
      MultiplySum(SumDefined(init), last, k);
    }
  }

  lemma ScaleSlice(c: Column, k: real, lo: nat, hi: nat)
    requires lo <= hi <= |c|
    ensures Scale(c, k)[lo..hi] == Scale(c[lo..hi], k)
  {
    forall j | 0 <= j < hi - lo
      ensures Scale(c, k)[lo..hi][j] == Scale(c[lo..hi], k)[j]
    {
      assert Scale(c, k)[lo..hi][j] == Scale(c, k)[lo + j];
      assert c[lo..hi][j] == c[lo + j];
      var sub := c[lo..hi];
      if c[lo + j].Some? {
        assert Scale(c, k)[lo + j] == Some(c[lo + j].value * k);
        assert sub[j].Some? && Scale(sub, k)[j].Some?;
        assert Scale(sub, k)[j].value == sub[j].value * k;
        assert sub[j].value == c[lo + j].value;
        assert Scale(sub, k)[j].value == c[lo + j].value * k;
        assert Scale(sub, k)[j] == Some(c[lo + j].value * k);
      } else {
        assert Scale(c, k)[lo + j].None?;
        assert Scale(sub, k)[j].None?;
      }
    }
  }

  lemma MultiplySum(a: real, b: real, k: real)
    ensures a * k + b * k == (a + b) * k
  {
  }

  lemma ScaleAt(c: Column, k: real, i: nat)
    requires i < |c|
    ensures Scale(c, k)[i] == if c[i].Some? then Some(c[i].value * k) else None
  {
    if c[i].Some? {
      assert Scale(c, k)[i].value == c[i].value * k;
    }
  }

  lemma RollingMeanOfScaleValue(c: Column, w: nat, k: real, i: nat)
    requires w > 0 && i < |c|
    ensures var m := RollingMean(c, w)[i];
            RollingMean(Scale(c, k), w)[i] == if m.Some? then Some(m.value * k) else None
  {
    if w <= i + 1 {
      var lo := i + 1 - w;
      var win := c[lo..i + 1];
      ScaleSlice(c, k, lo, i + 1);
      assert AllDefined(Scale(c, k)[lo..i + 1]) <==> AllDefined(win) by {
        assert forall j | 0 <= j < w :: Scale(win, k)[j].Some? <==> win[j].Some?;
      }
      if AllDefined(win) {
        FullWindowOfScale(c, w, k, i);
      }
    }
  }

  lemma FullWindowOfScale(c: Column, w: nat, k: real, i: nat)
    requires 0 < w <= i + 1 && i < |c| && AllDefined(c[i + 1 - w..i + 1])
    ensures RollingMean(c, w)[i].Some?
    ensures RollingMean(Scale(c, k), w)[i] == Some(RollingMean(c, w)[i].value * k)
  {
    var total, scaledTotal := FullWindowSums(c, w, k, i);
    var a, b := RollingMean(Scale(c, k), w)[i].value, RollingMean(c, w)[i].value;
    assert a == scaledTotal / w as real;
    assert b == total / w as real;
    MeanOfScaledTotal(total, scaledTotal, k, w as real, a, b);
    assert RollingMean(Scale(c, k), w)[i].value == RollingMean(c, w)[i].value * k;
  }

  lemma MeanOfScaledTotal(total: real, scaledTotal: real, k: real, w: real, a: real, b: real)
    requires w != 0.0 && scaledTotal == total * k && a == scaledTotal / w && b == total / w
    ensures a == b * k
  {
    assert total * k / w == total / w * k;
  }

  lemma FullWindowSums(c: Column, w: nat, k: real, i: nat) returns (total: real, scaledTotal: real)
    requires 0 < w <= i + 1 && i < |c| && AllDefined(c[i + 1 - w..i + 1])
    ensures scaledTotal == total * k
    ensures RollingMean(Scale(c, k), w)[i] == Some(scaledTotal / w as real)
    ensures RollingMean(c, w)[i] == Some(total / w as real)
  {
    var win := c[i + 1 - w..i + 1];
    total, scaledTotal := SumDefined(win), SumDefined(Scale(win, k));
    ScaleSlice(c, k, i + 1 - w, i + 1);
    assert AllDefined(Scale(win, k));
    SumDefinedScale(win, k);
  }

  lemma RollingMeanOfScaleAt(c: Column, w: nat, k: real, i: nat)
    requires w > 0 && i < |c|
    ensures RollingMean(Scale(c, k), w)[i] == Scale(RollingMean(c, w), k)[i]
  {
    RollingMeanOfScaleValue(c, w, k, i);
    ScaleAt(RollingMean(c, w), k, i);
  }

  /**
   * Scaling commutes with the rolling mean: the mean of `c * k` is `k` times
   * the mean of `c`, and each is missing where the other is.
   */
  lemma RollingMeanOfScale(c: Column, w: nat, k: real)
    requires w > 0
    ensures RollingMean(Scale(c, k), w) == Scale(RollingMean(c, w), k)
  {
    forall i | 0 <= i < |c|
      ensures RollingMean(Scale(c, k), w)[i] == Scale(RollingMean(c, w), k)[i]
    {
      RollingMeanOfScaleAt(c, w, k, i);
    }
  }
}
