/** The rebalancing engine (`Rebalancer`): one signal per asset from its
    current allocation ("REDUCE" above the maximum, "BUY" below the buy
    trigger, "HOLD" otherwise), and the trade list made of the non-HOLD
    signals, with its count. */
module Rebalancer {
  import opened Numeric
  import opened Portfolio
  import opened RiskEngine

  /** The target every REDUCE and BUY signal points to (equal weight for
      three assets). */
  const TargetAlloc: real := 33.33
  /** The largest allocation percent that is not reduced. */
  const MaxAlloc: real := 30.0
  /** Allocations below this percent are bought. */
  const BuyTrigger: real := 20.0

  datatype Action = Reduce | Buy | Hold

  /** One row of the signals DataFrame. */
  datatype Signal = Signal(asset: Asset, current: Num, target: Num, action: Action)

  /** One entry of the current allocation series: asset and percent. */
  datatype AllocationEntry = AllocationEntry(asset: Asset, percent: Num)

  /** The side a trade line is rendered with: "SELL" for a REDUCE signal,
      "BUY" for a BUY signal. */
  datatype TradeSide = SellTrade | BuyTrade

  /** One recommended trade. */
  datatype Trade = Trade(side: TradeSide, asset: Asset, current: Num, target: Num)

  /** The signal the rule gives an asset with allocation `alloc`. */
  function SignalFor(asset: Asset, alloc: Num): (s: Signal)
    ensures s.asset == asset && s.current == alloc
    ensures s.action == Hold <==> !alloc.Above(MaxAlloc) && !alloc.Below(BuyTrigger)
    ensures s.target == if s.action == Hold then alloc else Fin(TargetAlloc)
  {
    if alloc.Above(MaxAlloc) then Signal(asset, alloc, Fin(TargetAlloc), Reduce)
    else if alloc.Below(BuyTrigger) then Signal(asset, alloc, Fin(TargetAlloc), Buy)
    else Signal(asset, alloc, alloc, Hold)
  }

  /** The signals for a whole allocation series, in its order. */
  function SignalsOf(current: seq<AllocationEntry>): (signals: seq<Signal>)
    ensures |signals| == |current|
  {
    seq(|current|, i requires 0 <= i < |current| => SignalFor(current[i].asset, current[i].percent))
  }

  /** `generate_signals`: one pass over the allocation series, appending one
      signal per asset. */
  method GenerateSignals(current: seq<AllocationEntry>) returns (signals: seq<Signal>)
    ensures signals == SignalsOf(current)
    ensures |signals| == |current|
    ensures forall i :: 0 <= i < |current| ==> signals[i].asset == current[i].asset && signals[i].current == current[i].percent
  {
    signals := [];
    var i := 0;
    while i < |current|
      invariant 0 <= i <= |current|
      invariant signals == SignalsOf(current[..i])
    {
      var alloc := current[i].percent;
      var action: Action;
      var weight: Num;
      if alloc.Above(MaxAlloc) {
        action, weight := Reduce, Fin(TargetAlloc);
      } else if alloc.Below(BuyTrigger) {
        action, weight := Buy, Fin(TargetAlloc);
      } else {
        action, weight := Hold, alloc;
      }
      signals := signals + [Signal(current[i].asset, alloc, weight, action)];
      assert current[..i + 1][..i] == current[..i];
      i := i + 1;
    }
    assert current[..i] == current;
  }

  /** The trade a signal asks for, if any. */
  function TradeFor(s: Signal): (t: Option<Trade>)
    ensures t.None? <==> s.action == Hold
    ensures t.Some? ==> t.value.asset == s.asset && t.value.current == s.current && t.value.target == s.target
    ensures t.Some? ==> (t.value.side == SellTrade <==> s.action == Reduce)
  {
    match s.action
    case Reduce => Some(Trade(SellTrade, s.asset, s.current, s.target))
    case Buy => Some(Trade(BuyTrade, s.asset, s.current, s.target))
    case Hold => None
  }

  /** The trade list: the trades of the non-HOLD signals, in signal order. */
  function TradesOf(signals: seq<Signal>): (trades: seq<Trade>)
    ensures |trades| <= |signals|
  {
    if signals == [] then []
    else
      var t := TradeFor(signals[0]);
      (if t.Some? then [t.value] else []) + TradesOf(signals[1..])
  }

  /** Number of signals whose action is not HOLD. */
  function ActiveCount(signals: seq<Signal>): nat {
    if signals == [] then 0
    else (if signals[0].action == Hold then 0 else 1) + ActiveCount(signals[1..])
  }

  /** The start of a rendered trade line: "SELL " or "BUY  " (two blanks). */
  function Keyword(side: TradeSide): (w: string)
    ensures |w| == 5
  {
    match side
    case SellTrade => "SELL "
    case BuyTrade => "BUY  "
  }

  /** A rendered trade line up to the asset name; the percentages that
      follow in the printed line are left out. */
  function Line(t: Trade): string {
    Keyword(t.side) + t.asset + ": "
  }

  function Lines(trades: seq<Trade>): (lines: seq<string>)
    ensures |lines| == |trades|
    ensures forall i :: 0 <= i < |trades| ==> lines[i] == Line(trades[i])
  {
    seq(|trades|, i requires 0 <= i < |trades| => Line(trades[i]))
  }

  /** `w` occurs in `s` starting at index `i`. */
  predicate OccursAt(s: string, w: string, i: nat) {
    i + |w| <= |s| && s[i..i + |w|] == w
  }

  /** Python's substring test `w in s`. */
  predicate Contains(s: string, w: string) {
    exists i: nat :: i <= |s| && OccursAt(s, w, i)
  }

  /** `len([t for t in lines if 'BUY' in t or 'SELL' in t])`. */
  function MentionCount(lines: seq<string>): (n: nat)
    ensures n <= |lines|
  {
    if lines == [] then 0
    else (if Contains(lines[0], "BUY") || Contains(lines[0], "SELL") then 1 else 0) + MentionCount(lines[1..])
  }

  /** What `execute_report` computes from the allocation series: the signals,
      the trade list and the number of trades it announces. */
  method ExecuteReport(current: seq<AllocationEntry>) returns (signals: seq<Signal>, trades: seq<Trade>, count: nat)
    ensures signals == SignalsOf(current)
    ensures trades == TradesOf(signals)
    ensures count == |trades| == ActiveCount(signals)
  {
    signals := GenerateSignals(current);
    trades := [];
    var i := 0;
    while i < |signals|
      invariant 0 <= i <= |signals|
      invariant trades == TradesOf(signals[..i])
    {
      var row := signals[i];
      TradesAppend(signals[..i], [row]);
      if row.action == Reduce {
        trades := trades + [Trade(SellTrade, row.asset, row.current, row.target)];
      } else if row.action == Buy {
        trades := trades + [Trade(BuyTrade, row.asset, row.current, row.target)];
      }
      assert signals[..i + 1] == signals[..i] + [row];
      i := i + 1;
    }
    assert signals[..i] == signals;
    count := MentionCount(Lines(trades));
    EveryLineMentions(trades);
    TradeCount(signals);
  }

  // ---- The rule ----

  /** The three cases of the rule on a finite allocation: REDUCE above 30,
      BUY below 20, HOLD from 20 to 30 with the target equal to the current
      allocation; REDUCE and BUY target 33.33. */
  lemma RuleOnFinite(asset: Asset, x: real)
    ensures var s := SignalFor(asset, Fin(x));
            (s.action == Reduce <==> x > 30.0)
            && (s.action == Buy <==> x < 20.0)
            && (s.action == Hold <==> 20.0 <= x <= 30.0)
            && (s.action == Hold ==> s.target == Fin(x))
            && (s.action != Hold ==> s.target == Fin(33.33))
  {
  }

  /** The REDUCE test takes precedence: the cases are exhaustive and exclusive
      for every cell, and a NaN allocation (no comparison holds) is HOLD with
      target NaN, +inf is REDUCE and -inf is BUY. */
  lemma RuleOnCells(asset: Asset, alloc: Num)
    ensures var s := SignalFor(asset, alloc);
            (s.action == Reduce <==> alloc.Above(30.0))
            && (s.action == Buy <==> !alloc.Above(30.0) && alloc.Below(20.0))
            && (alloc == NaN ==> s == Signal(asset, NaN, NaN, Hold))
            && (alloc == PosInf ==> s.action == Reduce)
            && (alloc == NegInf ==> s.action == Buy)
  {
  }

  /** A REDUCE signal between 30 and 33.33 points to a target above the
      current allocation. */
  lemma ReduceTargetAboveCurrent(asset: Asset, x: real)
    requires 30.0 < x < 33.33
    ensures SignalFor(asset, Fin(x)).action == Reduce
    ensures SignalFor(asset, Fin(x)).target.val > x
  {
  }

  /** One signal per asset, in input order, with the allocation carried
      unchanged. */
  lemma SignalsInOrder(current: seq<AllocationEntry>, i: nat)
    requires i < |current|
    ensures SignalsOf(current)[i] == SignalFor(current[i].asset, current[i].percent)
    ensures SignalsOf(current)[i].asset == current[i].asset
    ensures SignalsOf(current)[i].current == current[i].percent
  {
  }

  // ---- The trade list ----

  /** The trade list of a concatenation is the concatenation of the trade
      lists: trades keep the order of their signals. */
  lemma {:induction false} TradesAppend(a: seq<Signal>, b: seq<Signal>)
    ensures TradesOf(a + b) == TradesOf(a) + TradesOf(b)
  {
    if a == [] {
      assert a + b == b;
    } else {
      var t := TradeFor(a[0]);
      var head := if t.Some? then [t.value] else [];
      assert (a + b)[0] == a[0];
      assert (a + b)[1..] == a[1..] + b;
      TradesAppend(a[1..], b);
      assert TradesOf(a + b) == head + TradesOf(a[1..] + b);
      assert TradesOf(a) == head + TradesOf(a[1..]);
    }
  }

  /** One trade per non-HOLD signal. */
  lemma {:induction false} TradeCount(signals: seq<Signal>)
    ensures |TradesOf(signals)| == ActiveCount(signals)
  {
    if signals != [] {
      TradeCount(signals[1..]);
    }
  }

  /** Every trade comes from a non-HOLD signal: a SELL from a REDUCE, a BUY
      from a BUY, with that signal's asset, current and target percent. */
  lemma {:induction false} TradeSource(signals: seq<Signal>, t: Trade) returns (k: nat)
    requires t in TradesOf(signals)
    ensures k < |signals| && signals[k].action != Hold
    ensures t == Trade(if signals[k].action == Reduce then SellTrade else BuyTrade,
                       signals[k].asset, signals[k].current, signals[k].target)
  {
    var first := TradeFor(signals[0]);
    if first.Some? && t == first.value {
      k := 0;
    } else {
      var k' := TradeSource(signals[1..], t);
      k := k' + 1;
    }
  }

  /** Every non-HOLD signal has its trade in the list; HOLD signals have none. */
  lemma {:induction false} SignalTrade(signals: seq<Signal>, k: nat)
    requires k < |signals|
    ensures signals[k].action != Hold ==> TradeFor(signals[k]).value in TradesOf(signals)
    ensures TradeFor(signals[k]).None? <==> signals[k].action == Hold
  {
    if k > 0 {
      SignalTrade(signals[1..], k - 1);
    }
  }

  /** Every rendered trade line starts with "SELL" or "BUY". */
  lemma LineMentions(t: Trade)
    ensures Contains(Line(t), "BUY") || Contains(Line(t), "SELL")
  {
    var l := Line(t);
    match t.side
    case SellTrade =>
      assert l[0..4] == "SELL";
      assert OccursAt(l, "SELL", 0);
    case BuyTrade =>
      assert l[0..3] == "BUY";
      assert OccursAt(l, "BUY", 0);
  }

  /** So the filter in the announced count lets every line through. */
  lemma {:induction false} EveryLineMentions(trades: seq<Trade>)
    ensures MentionCount(Lines(trades)) == |trades|
  {
    if trades != [] {
      LineMentions(trades[0]);
      assert Lines(trades)[1..] == Lines(trades[1..]);
      EveryLineMentions(trades[1..]);
    }
  }

  // ---- From the valuation to the signals ----

  /** `summary['Allocation %']`: the allocation series of a valuation. */
  function CurrentAllocation(a: Analysis): (current: seq<AllocationEntry>)
    ensures |current| == |a.summary|
    ensures forall i :: 0 <= i < |a.summary| ==> current[i] == AllocationEntry(a.summary[i].asset, a.summary[i].allocation)
  {
    seq(|a.summary|, i requires 0 <= i < |a.summary| => AllocationEntry(a.summary[i].asset, a.summary[i].allocation))
  }

  /** An asset gets REDUCE exactly when its row is on the over-allocated list,
      and an under-allocated asset always gets BUY. */
  lemma FlagsAndSignals(hs: seq<Holding>, prices: map<Asset, real>, records: seq<RiskRecord>, i: nat)
    requires i < |hs|
    ensures var a := AnalysisOf(hs, prices, records);
            var s := SignalsOf(CurrentAllocation(a))[i];
            (s.action == Reduce <==> FlagOf(a.summary[i]) in a.overAllocated)
            && (FlagOf(a.summary[i]) in a.underAllocated ==> s.action == Buy)
  {
    var a := AnalysisOf(hs, prices, records);
    var row := a.summary[i];
    FlaggedMembers(a.summary, OverAllocated);
    FlaggedMembers(a.summary, UnderAllocated);
    assert FlagOf(row) in a.overAllocated <==> row.allocation.Above(30.0);
    assert FlagOf(row) in a.underAllocated <==> row.allocation.Below(10.0);
  }

  /** Two holdings at 35% and 15%: the first is reduced to 33.33 with a SELL
      trade, the second bought up to 33.33, and two trades are announced. */
  lemma TwoAssetScenario()
    ensures var current := [AllocationEntry("X", Fin(35.0)), AllocationEntry("Y", Fin(15.0))];
            var signals := SignalsOf(current);
            signals == [Signal("X", Fin(35.0), Fin(33.33), Reduce), Signal("Y", Fin(15.0), Fin(33.33), Buy)]
            && TradesOf(signals) == [Trade(SellTrade, "X", Fin(35.0), Fin(33.33)), Trade(BuyTrade, "Y", Fin(15.0), Fin(33.33))]
            && MentionCount(Lines(TradesOf(signals))) == 2
  {
    var current := [AllocationEntry("X", Fin(35.0)), AllocationEntry("Y", Fin(15.0))];
    var signals := SignalsOf(current);
    assert signals[1..] == [Signal("Y", Fin(15.0), Fin(33.33), Buy)];
    assert signals[1..][1..] == [];
    EveryLineMentions(TradesOf(signals));
  }
}
