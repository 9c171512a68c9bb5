/** The portfolio valuator (`PortfolioAnalyzer`): values, total value,
    allocation percentages rounded to two decimals, the over- and
    under-allocated lists and the summary table joined with the risk level. */
module Portfolio {
  import opened Numeric
  import opened Rounding
  import opened RiskEngine

  /** Allocation percent above which an asset is over-allocated. */
  const OverLimit: real := 30.0
  /** Allocation percent below which an asset is under-allocated. */
  const UnderLimit: real := 10.0

  /** One entry of the holdings dict, in the dict's order. */
  datatype Holding = Holding(asset: Asset, shares: nat)

  /** One row of the summary DataFrame. */
  datatype Row = Row(
    asset: Asset,
    shares: nat,
    price: Num,
    value: Num,
    allocation: Num,
    risk: Option<RiskLevel>)

  /** One entry of `allocation[allocation > 30]` or `allocation[allocation < 10]`. */
  datatype Flag = Flag(asset: Asset, allocation: Num)

  datatype Side = OverAllocated | UnderAllocated

  /** What `analyze` returns. */
  datatype Analysis = Analysis(
    summary: seq<Row>,
    totalValue: real,
    overAllocated: seq<Flag>,
    underAllocated: seq<Flag>)

  /** `analyze` either returns, or fails when the risk engine raises. */
  datatype Outcome = Analysed(analysis: Analysis) | RiskFailed

  function AssetsOf(hs: seq<Holding>): (assets: seq<Asset>)
    ensures |assets| == |hs|
    ensures forall i :: 0 <= i < |hs| ==> assets[i] == hs[i].asset
  {
    seq(|hs|, i requires 0 <= i < |hs| => hs[i].asset)
  }

  /** The latest price of an asset; index alignment gives NaN where the
      price series has no entry. */
  function PriceOf(prices: map<Asset, real>, asset: Asset): (p: Num)
    ensures p.Fin? <==> asset in prices
  {
    if asset in prices then Fin(prices[asset]) else NaN
  }

  /** `shares * price` for one holding. */
  function ValueOf(h: Holding, prices: map<Asset, real>): (v: Num)
    ensures v.Fin? <==> h.asset in prices
  {
    if h.asset in prices then Fin(h.shares as real * prices[h.asset]) else NaN
  }

  /** `pd.Series(self.shares) * prices`. */
  function Values(hs: seq<Holding>, prices: map<Asset, real>): (vs: seq<Num>)
    ensures |vs| == |hs|
    ensures forall i :: 0 <= i < |hs| ==> vs[i] == ValueOf(hs[i], prices)
  {
    if hs == [] then []
    else [ValueOf(hs[0], prices)] + Values(hs[1..], prices)
  }

  /** `values.sum()`: the skipna sum of the values. */
  function TotalValue(hs: seq<Holding>, prices: map<Asset, real>): real {
    FinSum(Values(hs, prices))
  }

  /** `values / total_value * 100` for one value, before rounding. */
  function UnroundedAllocation(value: Num, total: real): (r: Num)
    ensures r.Fin? <==> value.Fin? && total != 0.0
    ensures r.Fin? ==> r.val * total == value.val * 100.0
  {
    if value.Fin? then Quotient(value.val, total).Scaled(100.0) else NaN
  }

  /** The total value is additive over the holdings, and a priced holding
      at a non-negative price never weighs more than the total. */
  lemma TotalValueSplits(hs: seq<Holding>, more: seq<Holding>, prices: map<Asset, real>)
    ensures TotalValue(hs + more, prices) == TotalValue(hs, prices) + TotalValue(more, prices)
    ensures NonNegativePrices(prices) ==> forall i :: 0 <= i < |hs| && hs[i].asset in prices ==>
              0.0 <= ValueOf(hs[i], prices).val <= TotalValue(hs, prices)
  {
    ValuesAppend(hs, more, prices);
    FinSumAppend(Values(hs, prices), Values(more, prices));
    if NonNegativePrices(prices) {
      ValuesNonNegative(hs, prices);
      forall i | 0 <= i < |hs| && hs[i].asset in prices
        ensures 0.0 <= ValueOf(hs[i], prices).val <= TotalValue(hs, prices)
      {
        FinSumBoundsCell(Values(hs, prices), i);
      }
    }
  }

  lemma ValuesAppend(hs: seq<Holding>, more: seq<Holding>, prices: map<Asset, real>)
    ensures Values(hs + more, prices) == Values(hs, prices) + Values(more, prices)
  {
    var l, r := Values(hs + more, prices), Values(hs, prices) + Values(more, prices);
    assert |l| == |r|;
    forall i | 0 <= i < |l|
      ensures l[i] == r[i]
    {
      if i < |hs| {
        assert (hs + more)[i] == hs[i];
      } else {
        assert (hs + more)[i] == more[i - |hs|];
      }
    }
  }

  /** `(values / total_value * 100).round(2)` for one value. */
  function AllocationOf(value: Num, total: real): (r: Num)
    ensures r.Fin? <==> value.Fin? && total != 0.0
  {
    RoundedNum(UnroundedAllocation(value, total))
  }

  /** The summary rows, one per holding in holdings order, against the
      given total value. */
  function SummaryRows(hs: seq<Holding>, prices: map<Asset, real>, records: seq<RiskRecord>, total: real): (rows: seq<Row>)
    ensures |rows| == |hs|
    ensures forall i :: 0 <= i < |hs| ==> rows[i] == RowOf(hs[i], prices, records, total)
  {
    if hs == [] then []
    else [RowOf(hs[0], prices, records, total)] + SummaryRows(hs[1..], prices, records, total)
  }

  function RowOf(h: Holding, prices: map<Asset, real>, records: seq<RiskRecord>, total: real): Row {
    var v := ValueOf(h, prices);
    Row(h.asset, h.shares, PriceOf(prices, h.asset), v, AllocationOf(v, total), LevelFor(records, h.asset))
  }

  predicate Breaches(side: Side, allocation: Num) {
    match side
    case OverAllocated => allocation.Above(OverLimit)
    case UnderAllocated => allocation.Below(UnderLimit)
  }

  function FlagOf(r: Row): Flag {
    Flag(r.asset, r.allocation)
  }

  /** The boolean-mask selection of the allocation series. */
  function Flagged(rows: seq<Row>, side: Side): (fs: seq<Flag>)
    ensures |fs| <= |rows|
  {
    if rows == [] then []
    else (if Breaches(side, rows[0].allocation) then [FlagOf(rows[0])] else []) + Flagged(rows[1..], side)
  }

  /** A flag is selected exactly when it is the flag of a row that breaches
      the limit. */
  lemma {:induction false} FlaggedMembers(rows: seq<Row>, side: Side)
    ensures forall f :: f in Flagged(rows, side) <==>
              exists k :: 0 <= k < |rows| && f == FlagOf(rows[k]) && Breaches(side, rows[k].allocation)
  {
    if rows != [] {
      FlaggedMembers(rows[1..], side);
      assert forall k :: 1 <= k < |rows| ==> rows[k] == rows[1..][k - 1];
    }
  }

  /** The numbers `analyze` returns, given the holdings, the latest prices
      and the risk table. */
  function AnalysisOf(hs: seq<Holding>, prices: map<Asset, real>, records: seq<RiskRecord>): Analysis {
    var total := TotalValue(hs, prices);
    var rows := SummaryRows(hs, prices, records, total);
    Analysis(rows, total, Flagged(rows, OverAllocated), Flagged(rows, UnderAllocated))
  }

  /** The analyzer object: the holdings, and the prices and risk table its
      last analysis fetched. */
  class PortfolioAnalyzer {
    var shares: seq<Holding>
    var prices: Option<map<Asset, real>>
    var riskData: Option<seq<RiskRecord>>

    constructor(holdings: seq<Holding>)
      ensures shares == holdings && prices == None && riskData == None
    {
      shares := holdings;
      prices := None;
      riskData := None;
    }

    /** `analyze`, with the fetched prices and returns passed in. The prices
        are stored first; when the risk engine raises, the risk table keeps
        its old value and no analysis is returned. */
    method Analyze(latest: map<Asset, real>, window: ReturnWindow, sqrt: real -> real) returns (out: Outcome)
      requires window.Valid()
      modifies this
      ensures shares == old(shares)
      ensures prices == Some(latest)
      ensures out.RiskFailed? <==> |window.assets| > 0 && |window.rows| == 0
      ensures out.RiskFailed? ==> riskData == old(riskData)
      ensures out.Analysed? ==>
                riskData.Some?
                && |riskData.value| == |window.assets|
                && (forall j :: 0 <= j < |window.assets| ==> riskData.value[j] == RecordOf(window, j, sqrt))
                && out.analysis == AnalysisOf(shares, latest, riskData.value)
    {
      prices := Some(latest);
      var metrics := CalculateMetrics(window, sqrt);
      if metrics.NoObservations? {
        return RiskFailed;
      }
      riskData := Some(metrics.records);
      out := Analysed(AnalysisOf(shares, latest, metrics.records));
    }
  }

  // ---- Properties of the valuation ----

  /** Every summary row carries its holding's shares, price, value, rounded
      allocation, and the risk level the risk table gives that asset. */
  lemma SummaryJoin(hs: seq<Holding>, prices: map<Asset, real>, records: seq<RiskRecord>, i: nat)
    requires i < |hs|
    ensures var a := AnalysisOf(hs, prices, records);
            var r := a.summary[i];
            |a.summary| == |hs|
            && r.asset == hs[i].asset && r.shares == hs[i].shares
            && r.price == (if hs[i].asset in prices then Fin(prices[hs[i].asset]) else NaN)
            && r.value == (if hs[i].asset in prices then Fin(hs[i].shares as real * prices[hs[i].asset]) else NaN)
            && r.allocation == AllocationOf(r.value, a.totalValue)
            && r.risk == LevelFor(records, hs[i].asset)
  {
    var total := TotalValue(hs, prices);
    var rows := SummaryRows(hs, prices, records, total);
    assert AnalysisOf(hs, prices, records).summary == rows;
    assert rows[i] == RowOf(hs[i], prices, records, total);
  }

  /** The risk column holds the level of the asset's own row of the risk table. */
  lemma SummaryRisk(hs: seq<Holding>, prices: map<Asset, real>, records: seq<RiskRecord>, i: nat, j: nat)
    requires i < |hs| && j < |records| && records[j].asset == hs[i].asset
    requires forall a, b :: 0 <= a < b < |records| ==> records[a].asset != records[b].asset
    ensures AnalysisOf(hs, prices, records).summary[i].risk == Some(records[j].level)
  {
    LevelForRow(records, j);
  }

  /** An asset missing from the prices has NaN price, value and allocation,
      and neither list holds a flag for it. */
  lemma MissingPrice(hs: seq<Holding>, prices: map<Asset, real>, records: seq<RiskRecord>, i: nat)
    requires i < |hs| && hs[i].asset !in prices
    ensures var a := AnalysisOf(hs, prices, records);
            a.summary[i].price == NaN && a.summary[i].value == NaN && a.summary[i].allocation == NaN
            && (forall f :: f in a.overAllocated ==> f.asset != hs[i].asset)
            && (forall f :: f in a.underAllocated ==> f.asset != hs[i].asset)
  {
    var a := AnalysisOf(hs, prices, records);
    SummaryJoin(hs, prices, records, i);
    forall f, side | f in Flagged(a.summary, side)
      ensures f.asset != hs[i].asset
    {
      var k := FlaggedWitness(a.summary, side, f);
      SummaryJoin(hs, prices, records, k);
    }
  }

  /** The lists select exactly the rows whose rounded allocation is above 30,
      respectively below 10. */
  lemma FlaggedExactly(hs: seq<Holding>, prices: map<Asset, real>, records: seq<RiskRecord>)
    ensures var a := AnalysisOf(hs, prices, records);
            (forall f :: f in a.overAllocated <==>
               exists k :: 0 <= k < |a.summary| && f == FlagOf(a.summary[k]) && a.summary[k].allocation.Above(30.0))
            && (forall f :: f in a.underAllocated <==>
               exists k :: 0 <= k < |a.summary| && f == FlagOf(a.summary[k]) && a.summary[k].allocation.Below(10.0))
  {
    var a := AnalysisOf(hs, prices, records);
    FlaggedMembers(a.summary, OverAllocated);
    FlaggedMembers(a.summary, UnderAllocated);
  }

  /** The selection keeps the order of the rows. */
  lemma {:induction false} FlaggedAppend(a: seq<Row>, b: seq<Row>, side: Side)
    ensures Flagged(a + b, side) == Flagged(a, side) + Flagged(b, side)
  {
    if a == [] {
      assert a + b == b;
    } else {
      var head := if Breaches(side, a[0].allocation) then [FlagOf(a[0])] else [];
      assert (a + b)[0] == a[0];
      assert (a + b)[1..] == a[1..] + b;
      FlaggedAppend(a[1..], b, side);
      assert Flagged(a + b, side) == head + Flagged(a[1..] + b, side);
      assert Flagged(a, side) == head + Flagged(a[1..], side);
    }
  }

  /** The row a selected flag comes from. */
  lemma {:induction false} FlaggedWitness(rows: seq<Row>, side: Side, f: Flag) returns (k: nat)
    requires f in Flagged(rows, side)
    ensures k < |rows| && f == FlagOf(rows[k]) && Breaches(side, rows[k].allocation)
  {
    if Breaches(side, rows[0].allocation) && f == FlagOf(rows[0]) {
      k := 0;
    } else {
      var k' := FlaggedWitness(rows[1..], side, f);
      k := k' + 1;
    }
  }

  /** No row breaching the limit means an empty selection. */
  lemma {:induction false} FlaggedNone(rows: seq<Row>, side: Side)
    requires forall k :: 0 <= k < |rows| ==> !Breaches(side, rows[k].allocation)
    ensures Flagged(rows, side) == []
  {
    if rows != [] {
      assert !Breaches(side, rows[0].allocation);
      FlaggedNone(rows[1..], side);
    }
  }

  /** With one holding per asset no asset is both over- and under-allocated,
      and every flagged asset is a held asset. */
  lemma FlagsDisjoint(hs: seq<Holding>, prices: map<Asset, real>, records: seq<RiskRecord>)
    requires Distinct(AssetsOf(hs))
    ensures var a := AnalysisOf(hs, prices, records);
            forall f, g :: f in a.overAllocated && g in a.underAllocated ==> f.asset != g.asset
    ensures var a := AnalysisOf(hs, prices, records);
            forall f :: f in a.overAllocated + a.underAllocated ==> f.asset in AssetsOf(hs)
  {
    var a := AnalysisOf(hs, prices, records);
    var rows := a.summary;
    forall f, g | f in a.overAllocated && g in a.underAllocated
      ensures f.asset != g.asset
    {
      var k := FlaggedWitness(rows, OverAllocated, f);
      var l := FlaggedWitness(rows, UnderAllocated, g);
      assert k != l;
      assert AssetsOf(hs)[k] != AssetsOf(hs)[l];
    }
    forall f | f in a.overAllocated + a.underAllocated
      ensures f.asset in AssetsOf(hs)
    {
      var side := if f in a.overAllocated then OverAllocated else UnderAllocated;
      var k := FlaggedWitness(rows, side, f);
      assert AssetsOf(hs)[k] == f.asset;
    }
  }

  /** Prices are non-negative (when present). */
  predicate NonNegativePrices(prices: map<Asset, real>) {
    forall a :: a in prices ==> prices[a] >= 0.0
  }

  lemma {:induction false} ValuesNonNegative(hs: seq<Holding>, prices: map<Asset, real>)
    requires NonNegativePrices(prices)
    ensures forall k :: 0 <= k < |hs| && Values(hs, prices)[k].Fin? ==> Values(hs, prices)[k].val >= 0.0
  {
    forall k | 0 <= k < |hs| && Values(hs, prices)[k].Fin?
      ensures Values(hs, prices)[k].val >= 0.0
    {
      ProductNonNegative(hs[k].shares as real, prices[hs[k].asset]);
    }
  }

  /** `v / t * 100` lies in [0, 100] for 0 <= v <= t. */
  lemma Share(v: real, t: real)
    requires t > 0.0 && 0.0 <= v <= t
    ensures 0.0 <= v / t * 100.0 <= 100.0
  {
    DivideBounds(v, t, 0.0, 1.0);
  }

  /** With non-negative prices and a positive total, every defined
      allocation lies in [0, 100]. */
  lemma AllocationRange(hs: seq<Holding>, prices: map<Asset, real>, records: seq<RiskRecord>, i: nat)
    requires NonNegativePrices(prices) && i < |hs| && hs[i].asset in prices
    requires TotalValue(hs, prices) > 0.0
    ensures var alloc := AnalysisOf(hs, prices, records).summary[i].allocation;
            alloc.Fin? && 0.0 <= alloc.val <= 100.0
  {
    var t := TotalValue(hs, prices);
    var vs := Values(hs, prices);
    ValuesNonNegative(hs, prices);
    FinSumBoundsCell(vs, i);
    Share(vs[i].val, t);
    Round2Percent(vs[i].val / t * 100.0);
  }

  /** `(a + b) / t * 100` splits into the two shares. */
  lemma ShareAdd(a: real, b: real, t: real)
    requires t > 0.0
    ensures (a + b) / t * 100.0 == a / t * 100.0 + b / t * 100.0
  {
    QuotientTimes(a, t);
    QuotientTimes(b, t);
    QuotientTimes(a + b, t);
    var d := (a + b) / t - a / t - b / t;
    assert d * t == 0.0 by {
      assert d * t == ((a + b) / t) * t - (a / t) * t - (b / t) * t;
    }
    ScaleOrder(d, 0.0, t);
    ScaleOrder(0.0, d, t);
  }

  /** The unrounded allocation column. */
  function UnroundedColumn(hs: seq<Holding>, prices: map<Asset, real>, total: real): (us: seq<Num>)
    ensures |us| == |hs|
  {
    if hs == [] then []
    else [UnroundedAllocation(ValueOf(hs[0], prices), total)] + UnroundedColumn(hs[1..], prices, total)
  }

  function AllocationColumn(rows: seq<Row>): (col: seq<Num>)
    ensures |col| == |rows|
    ensures forall i :: 0 <= i < |rows| ==> col[i] == rows[i].allocation
  {
    if rows == [] then [] else [rows[0].allocation] + AllocationColumn(rows[1..])
  }

  /** The unrounded shares of the defined values add up to their sum over
      the total, times 100. */
  lemma {:induction false} UnroundedSum(hs: seq<Holding>, prices: map<Asset, real>, t: real)
    requires t > 0.0
    ensures FinSum(UnroundedColumn(hs, prices, t)) == FinSum(Values(hs, prices)) / t * 100.0
  {
    if hs != [] {
      var v := ValueOf(hs[0], prices);
      UnroundedSum(hs[1..], prices, t);
      var restValues := FinSum(Values(hs[1..], prices));
      if v.Fin? {
        ShareAdd(v.val, restValues, t);
      } else {
        assert FinSum(Values(hs, prices)) == restValues;
      }
    } else {
      assert 0.0 / t == 0.0;
    }
  }

  /** Before rounding, the allocations add up to exactly 100. */
  lemma AllocationsSumTo100(hs: seq<Holding>, prices: map<Asset, real>)
    requires TotalValue(hs, prices) > 0.0
    ensures FinSum(UnroundedColumn(hs, prices, TotalValue(hs, prices))) == 100.0
  {
    var t := TotalValue(hs, prices);
    UnroundedSum(hs, prices, t);
    DivideCancel(t, 1.0);
  }

  /** Rounding moves the sum of the allocations by at most half a cent per
      holding. */
  lemma {:induction false} RoundedSumError(hs: seq<Holding>, prices: map<Asset, real>, records: seq<RiskRecord>, t: real)
    requires t > 0.0
    ensures var rounded := FinSum(AllocationColumn(SummaryRows(hs, prices, records, t)));
            var exact := FinSum(UnroundedColumn(hs, prices, t));
            exact - |hs| as real * 0.005 <= rounded <= exact + |hs| as real * 0.005
  {
    if hs != [] {
      var rows := SummaryRows(hs, prices, records, t);
      assert SummaryRows(hs[1..], prices, records, t) == rows[1..];
      assert AllocationColumn(rows)[1..] == AllocationColumn(rows[1..]);
      RoundedSumError(hs[1..], prices, records, t);
      var u := UnroundedAllocation(ValueOf(hs[0], prices), t);
      if u.Fin? {
        Round2Error(u.val);
      }
    }
  }

  /** The rounded allocations add up to 100 within half a cent per holding. */
  lemma RoundedAllocationsNear100(hs: seq<Holding>, prices: map<Asset, real>, records: seq<RiskRecord>)
    requires TotalValue(hs, prices) > 0.0
    ensures var a := AnalysisOf(hs, prices, records);
            var s := FinSum(AllocationColumn(a.summary));
            100.0 - |hs| as real * 0.005 <= s <= 100.0 + |hs| as real * 0.005
  {
    AllocationsSumTo100(hs, prices);
    RoundedSumError(hs, prices, records, TotalValue(hs, prices));
  }

  /** Each over-allocated holding holds more than 29.995% before rounding,
      so the over-allocated list weighs at least 29.995 per entry. */
  lemma {:induction false} OverWeight(hs: seq<Holding>, prices: map<Asset, real>, records: seq<RiskRecord>, t: real)
    requires t > 0.0 && NonNegativePrices(prices)
    ensures |Flagged(SummaryRows(hs, prices, records, t), OverAllocated)| as real * 29.995
            <= FinSum(Values(hs, prices)) / t * 100.0
  {
    if hs == [] {
      assert 0.0 / t == 0.0;
    } else {
      var rows := SummaryRows(hs, prices, records, t);
      assert SummaryRows(hs[1..], prices, records, t) == rows[1..];
      OverWeight(hs[1..], prices, records, t);
      var v := ValueOf(hs[0], prices);
      var restValues := FinSum(Values(hs[1..], prices));
      if v.Fin? {
        ShareAdd(v.val, restValues, t);
        ProductNonNegative(hs[0].shares as real, prices[hs[0].asset]);
        QuotientSign(v.val, t);
        ProductSign(v.val / t, 100.0);
        Round2Error(v.val / t * 100.0);
      } else {
        assert FinSum(Values(hs, prices)) == restValues;
      }
    }
  }

  /** Since the allocations add up to 100, at most three assets can be
      over-allocated. */
  lemma AtMostThreeOver(hs: seq<Holding>, prices: map<Asset, real>, records: seq<RiskRecord>)
    requires NonNegativePrices(prices) && TotalValue(hs, prices) > 0.0
    ensures |AnalysisOf(hs, prices, records).overAllocated| <= 3
  {
    var t := TotalValue(hs, prices);
    OverWeight(hs, prices, records, t);
    DivideCancel(t, 1.0);
  }

  /** With non-negative prices and a zero total every allocation is NaN
      (0/0), and both lists are empty. */
  lemma ZeroTotal(hs: seq<Holding>, prices: map<Asset, real>, records: seq<RiskRecord>)
    requires NonNegativePrices(prices) && TotalValue(hs, prices) == 0.0
    ensures var a := AnalysisOf(hs, prices, records);
            (forall i :: 0 <= i < |hs| ==> a.summary[i].allocation == NaN)
            && a.overAllocated == [] && a.underAllocated == []
  {
    var a := AnalysisOf(hs, prices, records);
    var vs := Values(hs, prices);
    ValuesNonNegative(hs, prices);
    forall i | 0 <= i < |hs|
      ensures a.summary[i].allocation == NaN
    {
      if vs[i].Fin? {
        FinSumBoundsCell(vs, i);
      }
    }
    FlaggedNone(a.summary, OverAllocated);
    FlaggedNone(a.summary, UnderAllocated);
  }

  // ---- Worked scenarios ----

  function EqualPairHoldings(): seq<Holding> {
    [Holding("X", 10), Holding("Y", 10)]
  }

  function EqualPairPrices(): map<Asset, real> {
    map["X" := 100.0, "Y" := 100.0]
  }

  /** Two holdings of equal value: 50% each, both over-allocated, none under. */
  lemma EqualPairScenario()
    ensures var a := AnalysisOf(EqualPairHoldings(), EqualPairPrices(), []);
            a.totalValue == 2000.0
            && a.summary[0].value == Fin(1000.0) && a.summary[1].value == Fin(1000.0)
            && a.summary[0].allocation == Fin(50.0) && a.summary[1].allocation == Fin(50.0)
            && a.overAllocated == [Flag("X", Fin(50.0)), Flag("Y", Fin(50.0))]
            && a.underAllocated == []
  {
    var hs, prices := EqualPairHoldings(), EqualPairPrices();
    var vs := Values(hs, prices);
    assert vs == [Fin(1000.0), Fin(1000.0)];
    assert vs[1..] == [Fin(1000.0)] && vs[1..][1..] == [];
    assert FinSum(vs[1..]) == 1000.0;
    assert FinSum(vs) == 2000.0;
    assert Quotient(1000.0, 2000.0) == Fin(0.5);
    HalfEvenOfInteger(5000);
    assert Round2(50.0) == 50.0;
  }

  /** A holding without a price: value and allocation NaN, total 0, both
      lists empty; the holding stays in the summary. */
  lemma MissingPriceScenario()
    ensures var a := AnalysisOf([Holding("X", 10)], map[], []);
            |a.summary| == 1
            && a.summary[0].value == NaN && a.summary[0].allocation == NaN
            && a.totalValue == 0.0
            && a.overAllocated == [] && a.underAllocated == []
  {
    ZeroTotal([Holding("X", 10)], map[], []);
  }
}
