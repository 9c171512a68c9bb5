/** The risk engine (`RiskAnalyzer`): per-asset annualised volatility,
    Sharpe ratio, 95% historical value at risk and a risk level, and the
    aggregate portfolio risk figure, over a window of periodic returns. */
module RiskEngine {
  import opened Numeric
  import opened Rounding
  import opened Percentile

  /** Periods per year used to annualise. */
  const TradingDays: real := 252.0
  /** Volatility (percent) below which an asset is LOW risk. */
  const LowLimit: real := 20.0
  /** Volatility (percent) below which an asset is at most MEDIUM risk. */
  const MediumLimit: real := 35.0

  datatype RiskLevel = Low | Medium | High

  /** Rank of a level, for comparing levels. */
  function Severity(l: RiskLevel): nat {
    match l
    case Low => 0
    case Medium => 1
    case High => 2
  }

  /** The returns DataFrame: one column per asset, one row per period.
      After the feed's `dropna` every cell is a number. */
  datatype ReturnWindow = ReturnWindow(assets: seq<Asset>, rows: seq<seq<real>>) {
    predicate Valid() {
      Distinct(assets) && forall t :: 0 <= t < |rows| ==> |rows[t]| == |assets|
    }

    /** The returns of the `j`-th asset, oldest first. */
    function Column(j: nat): (col: seq<real>)
      requires Valid() && j < |assets|
      ensures |col| == |rows|
      ensures forall t :: 0 <= t < |rows| ==> col[t] == rows[t][j]
    {
      seq(|rows|, t requires 0 <= t < |rows| => rows[t][j])
    }
  }

  datatype RiskRecord = RiskRecord(
    asset: Asset,
    volatility: Num,
    sharpe: Num,
    valueAtRisk: real,
    level: RiskLevel)

  /** Result of `calculate_metrics`: the table, or the error `np.percentile`
      raises on an asset without a single observation. */
  datatype Metrics = Table(records: seq<RiskRecord>) | NoObservations

  /** `returns.std() * np.sqrt(252) * 100` for one asset. */
  function Volatility(col: seq<real>, sqrt: real -> real): (v: Num)
    ensures v.Fin? <==> |col| >= 2
    ensures v.Fin? && SquareRoot(sqrt) ==> v.val >= 0.0
  {
    match SampleStd(col, sqrt)
    case Fin(sd) =>
      Annualised(SampleVariance(col), sqrt);
      Fin(sd * sqrt(TradingDays) * 100.0)
    case _ => NaN
  }

  /** A standard deviation annualised to percent stays non-negative. */
  lemma Annualised(variance: real, sqrt: real -> real)
    requires variance >= 0.0
    ensures SquareRoot(sqrt) ==> sqrt(variance) * sqrt(TradingDays) * 100.0 >= 0.0
  {
    if SquareRoot(sqrt) {
      var sd := sqrt(variance);
      assert sd >= 0.0 && sqrt(TradingDays) > 0.0;
      ProductSign(sd, sqrt(TradingDays));
      ProductSign(sd * sqrt(TradingDays), 100.0);
    }
  }

  /** `(returns.mean() * 252) / (returns.std() * np.sqrt(252))` for one asset,
      with float division by zero. */
  function Sharpe(col: seq<real>, sqrt: real -> real): (r: Num)
    ensures |col| < 2 ==> r == NaN
    ensures r.Fin? ==> SampleStd(col, sqrt).Fin? && r.val * (SampleStd(col, sqrt).val * sqrt(TradingDays)) == Mean(col) * TradingDays
  {
    match SampleStd(col, sqrt)
    case Fin(sd) => Quotient(Mean(col) * TradingDays, sd * sqrt(TradingDays))
    case _ => NaN
  }

  /** `np.percentile(returns, 5) * 100` for one asset. */
  function ValueAtRisk(col: seq<real>): real
    requires |col| > 0
  {
    FifthPercentile(col) * 100.0
  }

  /** The category the loop assigns to one volatility; a NaN volatility fails
      both comparisons and lands in HIGH. */
  function LevelOf(v: Num): (l: RiskLevel)
    ensures l == Low <==> v.Below(LowLimit)
    ensures l == High <==> !v.Below(MediumLimit)
  {
    if v.Below(LowLimit) then Low
    else if v.Below(MediumLimit) then Medium
    else High
  }

  /** The three bands on a defined volatility. */
  lemma LevelBands(v: real)
    ensures LevelOf(Fin(v)) == Low <==> v < 20.0
    ensures LevelOf(Fin(v)) == Medium <==> 20.0 <= v < 35.0
    ensures LevelOf(Fin(v)) == High <==> 35.0 <= v
  {
  }

  /** A higher volatility never gives a lower risk level. */
  lemma LevelMonotone(v: real, w: real)
    requires v <= w
    ensures Severity(LevelOf(Fin(v))) <= Severity(LevelOf(Fin(w)))
  {
  }

  /** An undefined volatility is classified HIGH. */
  lemma LevelOfUndefined()
    ensures LevelOf(NaN) == High
  {
  }

  /** The `for v in vol` loop: one category per volatility, in column order. */
  method ClassifyVolatilities(vols: seq<Num>) returns (levels: seq<RiskLevel>)
    ensures |levels| == |vols|
    ensures forall i :: 0 <= i < |vols| ==> levels[i] == LevelOf(vols[i])
  {
    levels := [];
    var i := 0;
    while i < |vols|
      invariant 0 <= i <= |vols|
      invariant |levels| == i
      invariant forall k :: 0 <= k < i ==> levels[k] == LevelOf(vols[k])
    {
      var v := vols[i];
      var cat;
      if v.Below(LowLimit) {
        cat := Low;
      } else if v.Below(MediumLimit) {
        cat := Medium;
      } else {
        cat := High;
      }
      levels := levels + [cat];
      i := i + 1;
    }
  }

  /** The row of the metrics table for the `j`-th asset. */
  function RecordOf(w: ReturnWindow, j: nat, sqrt: real -> real): (r: RiskRecord)
    requires w.Valid() && j < |w.assets| && |w.rows| > 0
    ensures r.asset == w.assets[j] && r.level == LevelOf(r.volatility)
  {
    var col := w.Column(j);
    RiskRecord(w.assets[j], Volatility(col, sqrt), Sharpe(col, sqrt), ValueAtRisk(col), LevelOf(Volatility(col, sqrt)))
  }

  /** `calculate_metrics`: the vectorised volatility and Sharpe series, the
      category loop, then the VaR list, which fails on an empty window. */
  method CalculateMetrics(w: ReturnWindow, sqrt: real -> real) returns (m: Metrics)
    requires w.Valid()
    ensures m.NoObservations? <==> |w.assets| > 0 && |w.rows| == 0
    ensures m.Table? ==> |m.records| == |w.assets|
    ensures m.Table? ==> forall j :: 0 <= j < |w.assets| ==> m.records[j] == RecordOf(w, j, sqrt)
  {
    var n := |w.assets|;
    var vols := seq(n, j requires 0 <= j < n => Volatility(w.Column(j), sqrt));
    var sharpes := seq(n, j requires 0 <= j < n => Sharpe(w.Column(j), sqrt));
    var levels := ClassifyVolatilities(vols);
    if n > 0 && |w.rows| == 0 {
      return NoObservations;
    }
    var records := seq(n, j requires 0 <= j < n =>
      RiskRecord(w.assets[j], vols[j], sharpes[j], ValueAtRisk(w.Column(j)), levels[j]));
    return Table(records);
  }

  /** The risk level the table gives an asset (`risk_data['Risk Level']`
      looked up by asset), if it has a row. */
  function LevelFor(records: seq<RiskRecord>, asset: Asset): (l: Option<RiskLevel>)
    ensures l.None? <==> forall i :: 0 <= i < |records| ==> records[i].asset != asset
    ensures l.Some? ==> exists i :: 0 <= i < |records| && records[i].asset == asset && records[i].level == l.value
  {
    if records == [] then None
    else if records[0].asset == asset then Some(records[0].level)
    else
      var rest := LevelFor(records[1..], asset);
      assert forall i :: 1 <= i < |records| ==> records[i] == records[1..][i - 1];
      rest
  }

  /** With one row per asset the lookup finds that row's level. */
  lemma {:induction false} LevelForRow(records: seq<RiskRecord>, i: nat)
    requires i < |records|
    requires forall a, b :: 0 <= a < b < |records| ==> records[a].asset != records[b].asset
    ensures LevelFor(records, records[i].asset) == Some(records[i].level)
  {
    if i > 0 {
      LevelForRow(records[1..], i - 1);
    }
  }

  /** Volatility is never negative. */
  lemma VolatilityNonNegative(col: seq<real>, sqrt: real -> real)
    requires SquareRoot(sqrt) && |col| >= 2
    ensures Volatility(col, sqrt).Fin? && Volatility(col, sqrt).val >= 0.0
  {
  }

  /** With a spread-out sample the Sharpe ratio is defined and has the sign
      of the mean return. */
  lemma SharpeSign(col: seq<real>, sqrt: real -> real)
    requires SquareRoot(sqrt) && |col| >= 2 && SampleVariance(col) > 0.0
    ensures Sharpe(col, sqrt).Fin?
    ensures Sharpe(col, sqrt).val > 0.0 <==> Mean(col) > 0.0
    ensures Sharpe(col, sqrt).val < 0.0 <==> Mean(col) < 0.0
    ensures Sharpe(col, sqrt).val == 0.0 <==> Mean(col) == 0.0
  {
    var sd := sqrt(SampleVariance(col));
    assert sd > 0.0 && sqrt(TradingDays) > 0.0;
    ProductSign(sd, sqrt(TradingDays));
    QuotientSign(Mean(col) * TradingDays, sd * sqrt(TradingDays));
  }

  /** With zero spread the Sharpe ratio is not a finite number: an infinity
      of the mean's sign, or NaN for a zero mean. */
  lemma SharpeOfFlatSeries(col: seq<real>, sqrt: real -> real)
    requires SquareRoot(sqrt) && |col| >= 2 && SampleVariance(col) == 0.0
    ensures !Sharpe(col, sqrt).Fin?
    ensures Sharpe(col, sqrt) == PosInf <==> Mean(col) > 0.0
    ensures Sharpe(col, sqrt) == NegInf <==> Mean(col) < 0.0
    ensures Sharpe(col, sqrt) == NaN <==> Mean(col) == 0.0
  {
    assert sqrt(SampleVariance(col)) == 0.0;
  }

  /** Fewer than two observations: volatility and Sharpe are NaN and the
      asset is classified HIGH. */
  lemma ShortSeries(col: seq<real>, sqrt: real -> real)
    requires |col| < 2
    ensures Volatility(col, sqrt) == NaN && Sharpe(col, sqrt) == NaN
    ensures LevelOf(Volatility(col, sqrt)) == High
  {
  }

  /** VaR-95 lies within the range of the sample, scaled to percent. */
  lemma ValueAtRiskWithinRange(col: seq<real>)
    requires |col| > 0
    ensures MinOf(col) * 100.0 <= ValueAtRisk(col) <= MaxOf(col) * 100.0
  {
    PercentileWithinRange(col);
  }

  /** A constant return series `c`: volatility 0, level LOW, no finite
      Sharpe ratio, and VaR-95 of `c` percent points times 100. */
  lemma ConstantSeries(col: seq<real>, c: real, sqrt: real -> real)
    requires SquareRoot(sqrt) && |col| >= 2 && Constant(col, c)
    ensures Volatility(col, sqrt) == Fin(0.0)
    ensures LevelOf(Volatility(col, sqrt)) == Low
    ensures !Sharpe(col, sqrt).Fin?
    ensures ValueAtRisk(col) == c * 100.0
  {
    ConstantStatistics(col, c);
    SharpeOfFlatSeries(col, sqrt);
    PercentileOfConstant(col, c);
  }

  /** `returns.std(axis=1)`: the spread across assets at each period. */
  function CrossSectionStds(w: ReturnWindow, sqrt: real -> real): (sds: seq<real>)
    requires w.Valid() && |w.assets| >= 2
    ensures |sds| == |w.rows|
    ensures SquareRoot(sqrt) ==> forall t :: 0 <= t < |sds| ==> sds[t] >= 0.0
  {
    RootNonNegative(sqrt);
    var sds := seq(|w.rows|, t requires 0 <= t < |w.rows| => sqrt(SampleVariance(w.rows[t])));
    assert forall t :: 0 <= t < |sds| ==> sds[t] == sqrt(SampleVariance(w.rows[t])) && SampleVariance(w.rows[t]) >= 0.0;
    sds
  }

  /** `portfolio_risk`: `round(returns.std(axis=1).mean() * np.sqrt(252) * 100, 2)`. */
  function PortfolioRisk(w: ReturnWindow, sqrt: real -> real): (r: Num)
    requires w.Valid()
    ensures r.Fin? <==> |w.assets| >= 2 && |w.rows| > 0
    ensures r.Fin? && SquareRoot(sqrt) ==> r.val >= 0.0
  {
    if |w.assets| < 2 || |w.rows| == 0 then NaN
    else
      var sds := CrossSectionStds(w, sqrt);
      AnnualisedNonNegative(sds, sqrt);
      Fin(Round2(Mean(sds) * sqrt(TradingDays) * 100.0))
  }

  /** A mean of non-negative deviations, annualised and rounded, is
      non-negative. */
  lemma AnnualisedNonNegative(sds: seq<real>, sqrt: real -> real)
    requires |sds| > 0
    requires SquareRoot(sqrt) ==> forall t :: 0 <= t < |sds| ==> sds[t] >= 0.0
    ensures SquareRoot(sqrt) ==> Round2(Mean(sds) * sqrt(TradingDays) * 100.0) >= 0.0
  {
    if SquareRoot(sqrt) {
      MeanWithin(sds, 0.0, MaxOf(sds));
      ProductSign(Mean(sds), sqrt(TradingDays));
      ProductSign(Mean(sds) * sqrt(TradingDays), 100.0);
      Round2Monotone(0.0, Mean(sds) * sqrt(TradingDays) * 100.0);
      assert Round2(0.0) == 0.0 by {
        HalfEvenOfInteger(0);
      }
    }
  }

  /** The per-asset volatilities, for windows where all are defined. */
  function AssetVolatilities(w: ReturnWindow, sqrt: real -> real): (vs: seq<real>)
    requires w.Valid() && |w.rows| >= 2
    ensures |vs| == |w.assets|
    ensures forall j :: 0 <= j < |w.assets| ==> Volatility(w.Column(j), sqrt) == Fin(vs[j])
  {
    seq(|w.assets|, j requires 0 <= j < |w.assets| => Volatility(w.Column(j), sqrt).val)
  }

  /** Portfolio risk as the mean across assets of each asset's annualised
      volatility, rounded to two decimals. */
  function PortfolioRiskAcrossAssets(w: ReturnWindow, sqrt: real -> real): (r: Num)
    requires w.Valid()
    ensures r.Fin? <==> |w.assets| > 0 && |w.rows| >= 2
  {
    if |w.assets| == 0 || |w.rows| < 2 then NaN
    else Fin(Round2(Mean(AssetVolatilities(w, sqrt))))
  }

  /** The across-assets figure lies between the smallest and the largest
      per-asset volatility (both rounded the same way). */
  lemma PortfolioRiskAcrossAssetsBounds(w: ReturnWindow, sqrt: real -> real)
    requires w.Valid() && |w.assets| > 0 && |w.rows| >= 2
    ensures var vs := AssetVolatilities(w, sqrt);
            Round2(MinOf(vs)) <= PortfolioRiskAcrossAssets(w, sqrt).val <= Round2(MaxOf(vs))
  {
    var vs := AssetVolatilities(w, sqrt);
    MeanBounds(vs);
    Round2Monotone(MinOf(vs), Mean(vs));
    Round2Monotone(Mean(vs), MaxOf(vs));
  }

  /** Two assets whose returns move in lockstep. */
  function LockstepWindow(): ReturnWindow {
    ReturnWindow(["X", "Y"], [[0.01, 0.01], [0.03, 0.03]])
  }

  /** On the lockstep window `portfolio_risk` reports 0: every period has
      zero spread across the two assets. */
  lemma LockstepPortfolioRisk(sqrt: real -> real)
    requires SquareRoot(sqrt)
    ensures LockstepWindow().Valid()
    ensures PortfolioRisk(LockstepWindow(), sqrt) == Fin(0.0)
  {
    var w := LockstepWindow();
    assert w.Valid();
    ConstantStatistics([0.01, 0.01], 0.01);
    ConstantStatistics([0.03, 0.03], 0.03);
    var sds := CrossSectionStds(w, sqrt);
    assert sds[0] == 0.0 && sds[1] == 0.0;
    MeanWithin(sds, 0.0, 0.0);
    assert Mean(sds) * sqrt(TradingDays) * 100.0 == 0.0;
    assert PortfolioRisk(w, sqrt) == Fin(Round2(Mean(sds) * sqrt(TradingDays) * 100.0));
    assert Round2(0.0) == 0.0 by {
      HalfEvenOfInteger(0);
    }
  }

  /** Yet each asset of the lockstep window, taken on its own, has positive
      volatility, and so has their mean. */
  lemma LockstepAssetVolatilities(sqrt: real -> real)
    requires SquareRoot(sqrt)
    ensures LockstepWindow().Valid()
    ensures forall j :: 0 <= j < 2 ==> Volatility(LockstepWindow().Column(j), sqrt).Above(0.0)
    ensures Mean(AssetVolatilities(LockstepWindow(), sqrt)) > 0.0
  {
    var w := LockstepWindow();
    assert w.Valid();
    var col := [0.01, 0.03];
    assert w.Column(0) == col && w.Column(1) == col;
    assert SampleVariance(col) == 0.0002 by {
      assert Sum(col) == 0.04;
      assert Mean(col) == 0.02;
      assert Scatter(col[1..], 0.02) == 0.0001;
      assert Scatter(col, 0.02) == 0.0002;
    }
    var sd := sqrt(0.0002);
    assert sd > 0.0 && sqrt(TradingDays) > 0.0;
    ProductSign(sd, sqrt(TradingDays));
    ProductSign(sd * sqrt(TradingDays), 100.0);
    var vs := AssetVolatilities(w, sqrt);
    assert vs[0] > 0.0 && vs[1] == vs[0];
    MeanWithin(vs, vs[0], vs[0]);
  }
}
