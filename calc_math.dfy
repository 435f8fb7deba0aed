/** The series container and its rolling Bollinger-band computation
    (calc/math.py). Prices are reals; the square root is a parameter of which
    the properties below only ask that it be non-negative on non-negative
    arguments. */
module CalcMath {
  import opened Wrappers

  datatype Error =
    | ValueError        // the six columns do not have one length
    | InvalidParameter  // the period is longer than the series

  // ---------------------------------------------------------------------
  // Window statistics
  // ---------------------------------------------------------------------

  /** Python's `sum` over a list of prices. */
  function Sum(s: seq<real>): real
  {
    if s == [] then 0.0 else s[0] + Sum(s[1..])
  }

  /** `sum(window) / period`: the mean, which times the window length gives
      back the window's sum. */
  function Mean(w: seq<real>): (m: real)
    requires w != []
    ensures m * (|w| as real) == Sum(w)
  {
    Sum(w) / (|w| as real)
  }

  /** `[(x - average) ** 2 for x in window]`. */
  function Squares(w: seq<real>, average: real): (d: seq<real>)
    // restates the body; helps the solver
    ensures |d| == |w|
    ensures forall k :: 0 <= k < |w| ==> d[k] == (w[k] - average) * (w[k] - average)
  {
    seq(|w|, k requires 0 <= k < |w| => (w[k] - average) * (w[k] - average))
  }

  /** The population variance: squared deviations divided by the window
      length, not by one less. It is never negative. */
  function Variance(w: seq<real>): (v: real)
    requires w != []
    ensures 0.0 <= v
  {
    var d := Squares(w, Mean(w));
    SquaresNonNegative(w, Mean(w));
    SumNonNegative(d);
    Sum(d) / (|w| as real)
  }

  lemma SquaresNonNegative(w: seq<real>, average: real)
    ensures forall k :: 0 <= k < |w| ==> 0.0 <= Squares(w, average)[k]
  {
    forall k | 0 <= k < |w| ensures 0.0 <= Squares(w, average)[k] {
      var x := w[k] - average;
      assert Squares(w, average)[k] == x * x;
    }
  }

  /** A sum of `n` terms between `lo` and `hi` lies between `n * lo` and `n * hi`. */
  lemma {:induction false} SumBounds(s: seq<real>, lo: real, hi: real)
    requires forall k :: 0 <= k < |s| ==> lo <= s[k] <= hi
    ensures (|s| as real) * lo <= Sum(s) <= (|s| as real) * hi
    decreases |s|
  {
    if s != [] {
      SumBounds(s[1..], lo, hi);
      assert (|s| as real) * lo == lo + (|s[1..]| as real) * lo;
      assert (|s| as real) * hi == hi + (|s[1..]| as real) * hi;
    }
  }

  lemma {:induction false} SumNonNegative(s: seq<real>)
    requires forall k :: 0 <= k < |s| ==> 0.0 <= s[k]
    ensures 0.0 <= Sum(s)
    decreases |s|
  {
    if s != [] {
      SumNonNegative(s[1..]);
    }
  }

  /** The mean of a window lies within the window's range. */
  lemma MeanBounds(w: seq<real>, lo: real, hi: real)
    requires w != []
    requires forall k :: 0 <= k < |w| ==> lo <= w[k] <= hi
    ensures lo <= Mean(w) <= hi
  {
    SumBounds(w, lo, hi);
    var n := |w| as real;
  }

  /** A flat window has zero variance: its mean is its price and no price
      deviates from it. */
  lemma FlatWindowVariance(w: seq<real>)
    requires w != []
    requires forall k :: 0 <= k < |w| ==> w[k] == w[0]
    ensures Mean(w) == w[0]
    ensures Variance(w) == 0.0
  {
    MeanBounds(w, w[0], w[0]);
    var d := Squares(w, Mean(w));
    assert forall k :: 0 <= k < |d| ==> d[k] == 0.0;
    SumBounds(d, 0.0, 0.0);
  }

  // ---------------------------------------------------------------------
  // One band point
  // ---------------------------------------------------------------------

  /** `(price - lower) / (upper - lower)`; `None` stands for the non-finite
      value the division gives on a zero-width band. */
  function PercentB(price: real, upper: real, lower: real): (r: Option<real>)
    ensures r.Some? <==> upper != lower
    ensures r.Some? ==> lower + r.value * (upper - lower) == price
  {
    if upper - lower == 0.0 then None else Some((price - lower) / (upper - lower))
  }

  /** `upper - lower / average`, as the source writes it: Python divides
      before it subtracts. `None` stands for the non-finite value of a zero
      average. */
  function BandwidthAsWritten(upper: real, lower: real, center: real): (r: Option<real>)
    ensures r.Some? <==> center != 0.0
    ensures r.Some? ==> (upper - r.value) * center == lower
  {
    if center == 0.0 then None else Some(upper - lower / center)
  }

  /** The conventional relative band width `(upper - lower) / center`. */
  function RelativeBandwidth(upper: real, lower: real, center: real): Option<real>
  {
    if center == 0.0 then None else Some((upper - lower) / center)
  }

  datatype Point = Point(date: int, center: real, upper: real, lower: real,
                         perb: Option<real>, bandwidth: Option<real>)

  /** The price window of output index `i`: the `period` prices before
      `price[i]`, without it. */
  function Window(price: seq<real>, i: int, period: int): (w: seq<real>)
    requires 1 <= period <= i <= |price|
    ensures |w| == period
  {
    price[i - period .. i]
  }

  /** What one iteration of the loop computes for index `i`: index `i`'s
      date, the mean of the window before it as center, and a band symmetric
      about that center. */
  function BandPoint(price: seq<real>, date: seq<int>, i: int, period: int,
                     multiplier: real, sqrt: real -> real): (p: Point)
    requires 1 <= period <= i < |price| == |date|
    ensures p.date == date[i]
    ensures p.center == Mean(Window(price, i, period))
    ensures p.upper - p.center == p.center - p.lower
  {
    var window := Window(price, i, period);
    var average := Mean(window);
    var std := sqrt(Variance(window));
    var upper := average + std * multiplier;
    var lower := average - std * multiplier;
    Point(date[i], average, upper, lower,
          PercentB(price[i], upper, lower), BandwidthAsWritten(upper, lower, average))
  }

  // ---------------------------------------------------------------------
  // The band table
  // ---------------------------------------------------------------------

  /** The dictionary `bollinger_band` returns, one list per key. */
  datatype BandTable = BandTable(date: seq<int>, center: seq<real>, upper: seq<real>,
                                 lower: seq<real>, perb: seq<Option<real>>,
                                 bandwidth: seq<Option<real>>)

  predicate Aligned(t: BandTable)
  {
    |t.center| == |t.date| && |t.upper| == |t.date| && |t.lower| == |t.date|
    && |t.perb| == |t.date| && |t.bandwidth| == |t.date|
  }

  /** The keys present: a `defaultdict` only gets a key when a value is
      appended under it, so a table without rows has none. */
  function Keys(t: BandTable): set<string>
  {
    if t.date == [] then {} else {"date", "center", "upper", "lower", "perb", "bandwidth"}
  }

  function TableOf(pts: seq<Point>): (t: BandTable)
    ensures Aligned(t) && |t.date| == |pts|
  {
    BandTable(seq(|pts|, k requires 0 <= k < |pts| => pts[k].date),
              seq(|pts|, k requires 0 <= k < |pts| => pts[k].center),
              seq(|pts|, k requires 0 <= k < |pts| => pts[k].upper),
              seq(|pts|, k requires 0 <= k < |pts| => pts[k].lower),
              seq(|pts|, k requires 0 <= k < |pts| => pts[k].perb),
              seq(|pts|, k requires 0 <= k < |pts| => pts[k].bandwidth))
  }

  lemma TableOfAppend(pts: seq<Point>, p: Point)
    ensures TableOf(pts + [p]) ==
      var t := TableOf(pts);
      BandTable(t.date + [p.date], t.center + [p.center], t.upper + [p.upper],
                t.lower + [p.lower], t.perb + [p.perb], t.bandwidth + [p.bandwidth])
  {
  }

  /** The points for the indices `period .. i - 1`. */
  function Points(price: seq<real>, date: seq<int>, period: int, i: int,
                  multiplier: real, sqrt: real -> real): (pts: seq<Point>)
    requires 1 <= period <= i <= |price| == |date|
    ensures |pts| == i - period
  {
    seq(i - period, k requires 0 <= k < i - period =>
      BandPoint(price, date, period + k, period, multiplier, sqrt))
  }

  lemma PointsStep(price: seq<real>, date: seq<int>, period: int, i: int,
                    multiplier: real, sqrt: real -> real)
    requires 1 <= period <= i < |price| == |date|
    ensures Points(price, date, period, i + 1, multiplier, sqrt)
         == Points(price, date, period, i, multiplier, sqrt)
            + [BandPoint(price, date, i, period, multiplier, sqrt)]
  {
  }

  /** One pass of the loop appends index `i`'s point to every column. */
  lemma BandStep(t: BandTable, price: seq<real>, date: seq<int>, period: int, i: int,
                 multiplier: real, sqrt: real -> real, p: Point)
    requires 1 <= period <= i < |price| == |date|
    requires t == TableOf(Points(price, date, period, i, multiplier, sqrt))
    requires p == BandPoint(price, date, i, period, multiplier, sqrt)
    ensures BandTable(t.date + [p.date], t.center + [p.center], t.upper + [p.upper],
                      t.lower + [p.lower], t.perb + [p.perb], t.bandwidth + [p.bandwidth])
         == TableOf(Points(price, date, period, i + 1, multiplier, sqrt))
  {
    PointsStep(price, date, period, i, multiplier, sqrt);
    TableOfAppend(Points(price, date, period, i, multiplier, sqrt), p);
  }

  /** `bollinger_band(period, multiplier)` on the columns `price` and `date`:
      an error when the period is longer than the series, otherwise one row
      per index from `period` to the last. */
  function Bands(price: seq<real>, date: seq<int>, period: int, multiplier: real,
                 sqrt: real -> real): (r: Result<BandTable, Error>)
    requires 1 <= period && |date| == |price|
    ensures r.Err? <==> period > |price|
    ensures r.Err? ==> r.error == InvalidParameter
    ensures r.Ok? ==> Aligned(r.value) && |r.value.date| == |price| - period
    ensures r.Ok? ==> (Keys(r.value) == {} <==> period == |price|)
  {
    if period > |price| then Err(InvalidParameter)
    else Ok(TableOf(Points(price, date, period, |price|, multiplier, sqrt)))
  }

  /** Row `k` belongs to index `period + k`: it carries that index's date,
      its center is the mean of the `period` prices before that index (the
      price at the index itself is not in the window), and its %B places the
      price at the index within the band. */
  lemma BandsRow(price: seq<real>, date: seq<int>, period: int, multiplier: real,
                 sqrt: real -> real, k: int)
    requires 1 <= period <= |price| == |date|
    requires 0 <= k < |price| - period
    ensures var t := Bands(price, date, period, multiplier, sqrt).value;
      var i := period + k;
      && t.date[k] == date[i]
      && t.center[k] == Mean(price[k .. i])
      && t.upper[k] == t.center[k] + sqrt(Variance(price[k .. i])) * multiplier
      && t.lower[k] == t.center[k] - sqrt(Variance(price[k .. i])) * multiplier
      && t.perb[k] == PercentB(price[i], t.upper[k], t.lower[k])
      && t.bandwidth[k] == BandwidthAsWritten(t.upper[k], t.lower[k], t.center[k])
  {
    var t := Bands(price, date, period, multiplier, sqrt).value;
    var i := period + k;
    var p := BandPoint(price, date, i, period, multiplier, sqrt);
    assert Points(price, date, period, |price|, multiplier, sqrt)[k] == p;
    assert t.date[k] == p.date && t.center[k] == p.center && t.upper[k] == p.upper
        && t.lower[k] == p.lower && t.perb[k] == p.perb && t.bandwidth[k] == p.bandwidth;
    var w := Window(price, i, period);
    assert w == price[k .. i];
    var std := sqrt(Variance(w));
    assert p == Point(date[i], Mean(w), Mean(w) + std * multiplier, Mean(w) - std * multiplier,
                      PercentB(price[i], Mean(w) + std * multiplier, Mean(w) - std * multiplier),
                      BandwidthAsWritten(Mean(w) + std * multiplier, Mean(w) - std * multiplier, Mean(w)));
  }

  /** The band is symmetric about the center, `multiplier` standard
      deviations to each side; with a non-negative multiplier the center lies
      between the lower and the upper band. */
  lemma BandsSymmetric(price: seq<real>, date: seq<int>, period: int, multiplier: real,
                       sqrt: real -> real, k: int)
    requires 1 <= period <= |price| == |date|
    requires 0 <= k < |price| - period
    requires forall x :: 0.0 <= x ==> 0.0 <= sqrt(x)
    ensures var t := Bands(price, date, period, multiplier, sqrt).value;
      var std := sqrt(Variance(price[k .. period + k]));
      && 0.0 <= std
      && t.upper[k] - t.center[k] == t.center[k] - t.lower[k] == multiplier * std
      && (0.0 <= multiplier ==> t.lower[k] <= t.center[k] <= t.upper[k])
  {
    var w := price[k .. period + k];
    var std := sqrt(Variance(w));
    assert 0.0 <= std;
    BandsRow(price, date, period, multiplier, sqrt, k);
    var t := Bands(price, date, period, multiplier, sqrt).value;
    assert t.upper[k] == t.center[k] + std * multiplier;
    assert t.lower[k] == t.center[k] - std * multiplier;
    if 0.0 <= multiplier {
      assert 0.0 <= multiplier * std;
    }
  }

  /** The center of every row lies within the range of its window. */
  lemma BandsCenterInRange(price: seq<real>, date: seq<int>, period: int, multiplier: real,
                           sqrt: real -> real, k: int, lo: real, hi: real)
    requires 1 <= period <= |price| == |date|
    requires 0 <= k < |price| - period
    requires forall j :: k <= j < period + k ==> lo <= price[j] <= hi
    ensures lo <= Bands(price, date, period, multiplier, sqrt).value.center[k] <= hi
  {
    var w := price[k .. period + k];
    assert forall j :: 0 <= j < |w| ==> w[j] == price[k + j];
    MeanBounds(w, lo, hi);
    BandsRow(price, date, period, multiplier, sqrt, k);
  }

  /** %B is 0 at the lower band, 1 at the upper band, and between them for
      a price inside a band of positive width. */
  lemma PercentBPosition(price: real, upper: real, lower: real)
    requires lower < upper
    ensures PercentB(price, upper, lower).Some?
    ensures price == lower ==> PercentB(price, upper, lower) == Some(0.0)
    ensures price == upper ==> PercentB(price, upper, lower) == Some(1.0)
    ensures lower <= price <= upper ==>
              0.0 <= PercentB(price, upper, lower).value <= 1.0
  {
    var d := upper - lower;
    var p := (price - lower) / d;
    assert p * d == price - lower;
    if price == lower {
      assert p * d == 0.0;
    }
    if price == upper {
      assert p == d / d;
      assert d / d == 1.0;
    }
    if lower <= price <= upper {
      assert 0.0 <= price - lower <= d;
      if p > 1.0 {
        assert (p - 1.0) * d > 0.0;
      }
    }
  }

  // ---------------------------------------------------------------------
  // The bandwidth formula
  // ---------------------------------------------------------------------

  /** A band of zero width around a center of 2 gets bandwidth 1 from the
      formula as written, and 3 once every price is doubled: the value is
      neither zero for a collapsed band nor independent of the price scale. */
  lemma BandwidthAsWrittenCounterexample()
    ensures BandwidthAsWritten(2.0, 2.0, 2.0) == Some(1.0)
    ensures BandwidthAsWritten(4.0, 4.0, 4.0) == Some(3.0)
    ensures RelativeBandwidth(2.0, 2.0, 2.0) == Some(0.0)
  {
  }

  /** The relative bandwidth is zero exactly for a collapsed band. */
  lemma RelativeBandwidthZero(upper: real, lower: real, center: real)
    requires center != 0.0
    ensures RelativeBandwidth(upper, lower, center) == Some(0.0) <==> upper == lower
  {
    if (upper - lower) / center == 0.0 {
      assert (upper - lower) == ((upper - lower) / center) * center;
    }
  }

  /** The relative bandwidth does not depend on the price scale. */
  lemma RelativeBandwidthScale(upper: real, lower: real, center: real, s: real)
    requires 0.0 < s
    ensures RelativeBandwidth(s * upper, s * lower, s * center) == RelativeBandwidth(upper, lower, center)
  {
    if center != 0.0 {
      assert s * upper - s * lower == s * (upper - lower);
      assert (s * (upper - lower)) / (s * center) == (upper - lower) / center;
    }
  }

  /** On a band row the relative bandwidth is twice the multiplier times the
      standard deviation over the center. */
  lemma BandsRelativeBandwidth(price: seq<real>, date: seq<int>, period: int, multiplier: real,
                               sqrt: real -> real, k: int)
    requires 1 <= period <= |price| == |date|
    requires 0 <= k < |price| - period
    ensures var t := Bands(price, date, period, multiplier, sqrt).value;
      var std := sqrt(Variance(price[k .. period + k]));
      t.center[k] != 0.0 ==>
        RelativeBandwidth(t.upper[k], t.lower[k], t.center[k])
          == Some(2.0 * multiplier * std / t.center[k])
  {
    var t := Bands(price, date, period, multiplier, sqrt).value;
    var std := sqrt(Variance(price[k .. period + k]));
    BandsRow(price, date, period, multiplier, sqrt, k);
    assert t.upper[k] - t.lower[k] == 2.0 * multiplier * std;
    if t.center[k] != 0.0 {
      assert (t.upper[k] - t.lower[k]) / t.center[k] == 2.0 * multiplier * std / t.center[k];
    }
  }

  // ---------------------------------------------------------------------
  // The container
  // ---------------------------------------------------------------------

  predicate SameLengths(date: seq<int>, price: seq<real>, low: seq<real>, high: seq<real>,
                        tvol: seq<real>, tamt: seq<real>)
  {
    |price| == |date| && |low| == |date| && |high| == |date|
    && |tvol| == |date| && |tamt| == |date|
  }

  /** `StockAnalyzer`: the validated columns of one symbol's series. The low
      and high columns are checked but not kept. */
  class StockAnalyzer {
    const code: string
    const exchange: string
    const date: seq<int>
    const price: seq<real>
    const tvol: seq<real>
    const tamt: seq<real>
    const length: nat

    ghost predicate Valid()
    {
      length == |date| && |price| == |date| && |tvol| == |date| && |tamt| == |date|
    }

    constructor (code: string, exchange: string, date: seq<int>, price: seq<real>,
                 low: seq<real>, high: seq<real>, tvol: seq<real>, tamt: seq<real>)
      requires SameLengths(date, price, low, high, tvol, tamt)
      ensures Valid()
      ensures this.code == code && this.exchange == exchange
      ensures this.date == date && this.price == price && this.tvol == tvol && this.tamt == tamt
    {
      this.code := code;
      this.exchange := exchange;
      this.date := date;
      this.price := price;
      this.tvol := tvol;
      this.tamt := tamt;
      this.length := |date|;
    }

    /** The `__init__` call: `ValueError` unless the six columns have one
      length, which may be zero. */
    static method Create(code: string, exchange: string, date: seq<int>, price: seq<real>,
                         low: seq<real>, high: seq<real>, tvol: seq<real>, tamt: seq<real>)
      returns (r: Result<StockAnalyzer, Error>)
      ensures r.Err? <==> !SameLengths(date, price, low, high, tvol, tamt)
      ensures r.Err? ==> r.error == ValueError
      ensures r.Ok? ==> r.value.Valid() && r.value.length == |date|
      ensures r.Ok? ==> r.value.date == date && r.value.price == price
                        && r.value.tvol == tvol && r.value.tamt == tamt
                        && r.value.code == code && r.value.exchange == exchange
    {
      if !SameLengths(date, price, low, high, tvol, tamt) {
        return Err(ValueError);
      }
      var a := new StockAnalyzer(code, exchange, date, price, low, high, tvol, tamt);
      r := Ok(a);
    }

    /** `__bool__`: an analyzer holding no data is false. */
    function AsBool(): (b: bool)
      requires Valid()
      ensures b <==> date != []
    {
      length != 0
    }

    /** `bollinger_band`: walks the indices from `period` to the last,
      computes each index's window statistics and band point (`BandPoint`)
      and appends one value per key for each. The fields are constants, so the
      same arguments always give the same table. */
    method BollingerBand(period: int, multiplier: real, sqrt: real -> real)
      returns (r: Result<BandTable, Error>)
      requires Valid() && 1 <= period
      ensures r == Bands(price, date, period, multiplier, sqrt)
    {
      if period > length {
        return Err(InvalidParameter);
      }
      var dates: seq<int> := [];
      var centers: seq<real> := [];
      var uppers: seq<real> := [];
      var lowers: seq<real> := [];
      var perbs: seq<Option<real>> := [];
      var bandwidths: seq<Option<real>> := [];
      var i := period;
      while i < length
        invariant period <= i <= length
        invariant BandTable(dates, centers, uppers, lowers, perbs, bandwidths)
               == TableOf(Points(price, date, period, i, multiplier, sqrt))
      {
        var p := BandPoint(price, date, i, period, multiplier, sqrt);
        BandStep(BandTable(dates, centers, uppers, lowers, perbs, bandwidths),
                 price, date, period, i, multiplier, sqrt, p);

        dates := dates + [p.date];
        centers := centers + [p.center];
        uppers := uppers + [p.upper];
        lowers := lowers + [p.lower];
        perbs := perbs + [p.perb];
        bandwidths := bandwidths + [p.bandwidth];
        i := i + 1;
      }
      r := Ok(BandTable(dates, centers, uppers, lowers, perbs, bandwidths));
    }
  }
}
