/**
 * The first dashboard's build: the same symbol resolution and join as the control room,
 * on a two-session window without a week figure, followed by totals that stay unknown
 * when nothing is known and one interactive record per holding.
 */
module Mvp {
  import opened Wrappers
  import opened Money
  import opened Quotes
  import opened Order
  import opened Metrics

  /** One entry of the interactive table. */
  datatype MvpRecord = MvpRecord(
    name: Cell, symbol: string, units: real,
    buy: Option<real>, current: Option<real>, costBasis: Option<real>, currentValue: Option<real>,
    pctVsBuy: Option<real>, pctVsDec: Option<real>, dayChange: Option<real>, dayPct: Option<real>)

  /** The totals of the dashboard; unlike the control room's they can be unknown. */
  datatype Totals = Totals(totalCost: Option<real>, totalValue: Option<real>, totalGain: Option<real>, pctGain: Option<real>)

  /** The entry of one holding: its figures, with unknown units written as 0. */
  function MvpRecordOf(p: Position): (r: MvpRecord)
    ensures r.symbol == p.symbol && r.name == p.name
    ensures r.units == (if p.units.Some? then p.units.value else 0.0)
    ensures r.buy == p.buy && r.current == p.current && r.costBasis == p.costBasis && r.currentValue == p.currentValue
    ensures r.pctVsBuy == p.pctVsBuy && r.pctVsDec == p.pctVsRef && r.dayChange == p.dayChange && r.dayPct == p.dayPct
  {
    MvpRecord(p.name, p.symbol, p.units.GetOr(0.0), p.buy, p.current, p.costBasis, p.currentValue,
              p.pctVsBuy, p.pctVsRef, p.dayChange, p.dayPct)
  }

  /** The entries of the holdings, one per holding, in the holdings' order. */
  function MvpRecordsOf(holdings: seq<Position>): (r: seq<MvpRecord>)
    ensures |r| == |holdings| && forall i :: 0 <= i < |r| ==> r[i] == MvpRecordOf(holdings[i])
  {
    seq(|holdings|, i requires 0 <= i < |holdings| => MvpRecordOf(holdings[i]))
  }

  /** The loop over the holdings that appends one interactive entry per holding. */
  method BuildInteractiveRecords(holdings: seq<Position>) returns (records: seq<MvpRecord>)
    ensures records == MvpRecordsOf(holdings)
  {
    records := [];
    var i := 0;
    while i < |holdings|
      invariant 0 <= i <= |holdings|
      invariant records == MvpRecordsOf(holdings[..i])
    {
      assert holdings[..i + 1] == holdings[..i] + [holdings[i]];
      records := records + [MvpRecordOf(holdings[i])];
      i := i + 1;
    }
    assert holdings[..i] == holdings;
  }

  /** `sum(min_count=1)`: the sum of the known values, or unknown when there is none. */
  function SumMinCount(s: seq<Position>, f: Position -> Option<real>): (r: Option<real>)
    ensures r.None? <==> !AnyDefined(s, f)
    ensures r.Some? ==> r.value == SumOf(s, f)
  {
    if AnyDefined(s, f) then Some(SumOf(s, f)) else None
  }

  /** `total_gain / total_cost * 100` when the cost is known and non-zero, 0 otherwise; unknown with an unknown gain. */
  function PctGain(totalCost: Option<real>, totalGain: Option<real>): (r: Option<real>)
    ensures !Truthy(totalCost) ==> r == Some(0.0)
    ensures Truthy(totalCost) ==> (r.Some? <==> totalGain.Some?)
    ensures Truthy(totalCost) && r.Some? ==> r.value * totalCost.value == totalGain.value * 100.0
  {
    if Truthy(totalCost) then
      if totalGain.Some? then Some(PercentOf(totalGain.value, totalCost.value)) else None
    else Some(0.0)
  }

  /** The totals of the holdings: the two sums, the gain (value minus cost), and the percent gain. */
  function TotalsOf(holdings: seq<Position>): (t: Totals)
    ensures t.totalCost.None? <==> !AnyDefined(holdings, CostBasisOf)
    ensures t.totalCost.Some? ==> t.totalCost.value == SumOf(holdings, CostBasisOf)
    ensures t.totalValue.None? <==> !AnyDefined(holdings, CurrentValueOf)
    ensures t.totalValue.Some? ==> t.totalValue.value == SumOf(holdings, CurrentValueOf)
    ensures t.totalGain.Some? <==> t.totalCost.Some? && t.totalValue.Some?
    ensures t.totalGain.Some? ==> t.totalGain.value == t.totalValue.value - t.totalCost.value
    ensures !Truthy(t.totalCost) ==> t.pctGain == Some(0.0)
    ensures Truthy(t.totalCost) ==> (t.pctGain.Some? <==> t.totalGain.Some?)
    ensures Truthy(t.totalCost) && t.pctGain.Some? ==> t.pctGain.value * t.totalCost.value == t.totalGain.value * 100.0
  {
    var totalCost := SumMinCount(holdings, CostBasisOf);
    var totalValue := SumMinCount(holdings, CurrentValueOf);
    var totalGain := if totalCost.Some? && totalValue.Some? then Some(totalValue.value - totalCost.value) else None;
    Totals(totalCost, totalValue, totalGain, PctGain(totalCost, totalGain))
  }

  /**
   * The build: the distinct symbols of the sheet are resolved on their two-session
   * windows, the rows are joined with the quotes, and the holdings give the totals and
   * one interactive entry each, in order of percent versus buy.
   */
  method Build(rows: seq<Row>, download: Request -> Download)
    returns (quotes: map<string, Quote>, records: seq<MvpRecord>, totals: Totals)
    ensures ResolvedSheet(rows, download, MvpConfig, quotes)
    ensures forall k :: k in quotes ==> quotes[k].weekPct.None?
    ensures records == MvpRecordsOf(Holdings(JoinAll(rows, quotes)))
    ensures totals == TotalsOf(Holdings(JoinAll(rows, quotes)))
  {
    quotes := ResolveSheet(rows, download, MvpConfig);
    ResolvedHaveNoWeek(rows, download, quotes);
    var holdings := Holdings(JoinAll(rows, quotes));
    totals := TotalsOf(holdings);
    records := BuildInteractiveRecords(holdings);
  }

  /**
   * The totals add the known figures of the rows with positive units, in any order; a
   * total is unknown exactly when no such row has its figure, and the gain is the value
   * minus the cost.
   */
  lemma TotalsOverRows(positions: seq<Position>)
    ensures var t := TotalsOf(Holdings(positions));
      && (t.totalValue.None? <==> forall i :: 0 <= i < |positions| && IsHolding(positions[i]) ==> positions[i].currentValue.None?)
      && (t.totalValue.Some? ==> t.totalValue.value == SumOf(positions, (p: Position) => if IsHolding(p) then p.currentValue else None))
      && (t.totalCost.None? <==> forall i :: 0 <= i < |positions| && IsHolding(positions[i]) ==> positions[i].costBasis.None?)
      && (t.totalCost.Some? ==> t.totalCost.value == SumOf(positions, (p: Position) => if IsHolding(p) then p.costBasis else None))
      && (t.totalGain.Some? <==> t.totalCost.Some? && t.totalValue.Some?)
      && (t.totalGain.Some? ==> t.totalGain.value == t.totalValue.value - t.totalCost.value)
  {
    HoldingsDefined(positions, CurrentValueOf);
    HoldingsDefined(positions, CostBasisOf);
    HoldingsSum(positions, CurrentValueOf, (p: Position) => if IsHolding(p) then p.currentValue else None);
    HoldingsSum(positions, CostBasisOf, (p: Position) => if IsHolding(p) then p.costBasis else None);
  }

  /** One entry per holding, in the holdings' order: entries for rows without positive units never appear. */
  lemma RecordsFollowHoldings(positions: seq<Position>)
    ensures var h := Holdings(positions);
      var records := MvpRecordsOf(h);
      && |records| == |h|
      && (forall i :: 0 <= i < |records| ==> records[i].symbol == h[i].symbol && records[i].units > 0.0)
      && (forall i, j :: 0 <= i < j < |records| ==> KeyLe(records[i].pctVsBuy, records[j].pctVsBuy))
  {
    var h := Holdings(positions);
    var records := MvpRecordsOf(h);
    forall i | 0 <= i < |records| ensures records[i].units > 0.0 {
      assert h[i] in h;
    }
    forall i, j | 0 <= i < j < |records| ensures KeyLe(records[i].pctVsBuy, records[j].pctVsBuy) {
      assert PctVsBuyKey(h[i]) == records[i].pctVsBuy && PctVsBuyKey(h[j]) == records[j].pctVsBuy;
    }
  }
}
