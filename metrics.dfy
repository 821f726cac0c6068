/**
 * The per-row metric join of both builders: a holdings row is joined with the quote map
 * into a position whose derived figures are unknown wherever an operand is unknown or a
 * base price is zero.
 */
module Metrics {
  import opened Wrappers
  import opened Money
  import opened Quotes
  import opened Order

  /**
   * One row of the holdings sheet, as read: the stock name, the symbol as text (a missing
   * symbol cell reads as "nan"), and the cells for units, buy price, snapshot current price,
   * the reference-date price and the target price.
   */
  datatype Row = Row(name: Cell, symbol: string, units: Cell, buyPrice: Cell, currentPrice: Cell,
                     refPrice: Cell, targetPrice: Cell)

  /** A row after the join: the coerced inputs, the quote fields and the derived figures. */
  datatype Position = Position(
    name: Cell, symbol: string,
    units: Option<real>, buy: Option<real>, current: Option<real>, refPrice: Option<real>, target: Option<real>,
    dayChange: Option<real>, dayPct: Option<real>, weekPct: Option<real>,
    pctVsBuy: Option<real>, pctVsRef: Option<real>,
    costBasis: Option<real>, currentValue: Option<real>, dayDollar: Option<real>)

  /** Moving `base` by `pct` percent gives `current`. */
  predicate Restores(base: real, pct: real, current: real) {
    base + base * pct / 100.0 == current
  }

  /** `(current - base) / base * 100`, unknown when either side is unknown or the base is zero. */
  function PctChange(current: Option<real>, base: Option<real>): (r: Option<real>)
    ensures r.Some? <==> current.Some? && base.Some? && base.value != 0.0
    ensures r.Some? ==> Restores(base.value, r.value, current.value)
  {
    if current.Some? && base.Some? && base.value != 0.0 then
      Some(PercentOf(current.value - base.value, base.value))
    else None
  }

  /** `r` is `a` times `b`. */
  predicate IsProduct(r: real, a: real, b: real) {
    r == a * b
  }

  /** A product with unknown propagation: unknown when either factor is. */
  function Mul(a: Option<real>, b: Option<real>): (r: Option<real>)
    ensures r.Some? <==> a.Some? && b.Some?
    ensures r.Some? ==> IsProduct(r.value, a.value, b.value)
  {
    if a.Some? && b.Some? then Some(a.value * b.value) else None
  }

  /**
   * The join of a row with the quote map: the current price is the quote's price when the
   * normalised symbol has a quote and the parsed snapshot otherwise; the day and week
   * fields come from the quote only. Units and the reference and target prices are
   * coerced as `to_numeric`; buy and snapshot prices go through the money parser.
   */
  function Join(row: Row, quotes: map<string, Quote>): (p: Position)
    ensures p.symbol == Normalize(row.symbol)
    ensures p.units == ToNumeric(row.units) && p.buy == ParseMoney(row.buyPrice)
    ensures p.refPrice == ToNumeric(row.refPrice) && p.target == ToNumeric(row.targetPrice)
    ensures p.symbol in quotes ==>
      p.current == Some(quotes[p.symbol].price) && p.dayChange == quotes[p.symbol].dayChange &&
      p.dayPct == quotes[p.symbol].dayPct && p.weekPct == quotes[p.symbol].weekPct
    ensures p.symbol !in quotes ==>
      p.current == ParseMoney(row.currentPrice) && p.dayChange.None? && p.dayPct.None? && p.weekPct.None?
    ensures Derived(p)
  {
    var symbol := Normalize(row.symbol);
    var quote := if symbol in quotes then Some(quotes[symbol]) else None;
    var units := ToNumeric(row.units);
    var buy := ParseMoney(row.buyPrice);
    var current := if quote.Some? then Some(quote.value.price) else ParseMoney(row.currentPrice);
    var refPrice := ToNumeric(row.refPrice);
    var target := ToNumeric(row.targetPrice);
    var dayChange := if quote.Some? then quote.value.dayChange else None;
    var dayPct := if quote.Some? then quote.value.dayPct else None;
    var weekPct := if quote.Some? then quote.value.weekPct else None;
    Derive(row.name, symbol, units, buy, current, refPrice, target, dayChange, dayPct, weekPct)
  }

  /** The derived columns, from the joined inputs: the two percent changes and the three products with units. */
  function Derive(name: Cell, symbol: string, units: Option<real>, buy: Option<real>, current: Option<real>,
                  refPrice: Option<real>, target: Option<real>,
                  dayChange: Option<real>, dayPct: Option<real>, weekPct: Option<real>): (p: Position)
    ensures p.name == name && p.symbol == symbol && p.units == units && p.buy == buy && p.current == current
    ensures p.refPrice == refPrice && p.target == target
    ensures p.dayChange == dayChange && p.dayPct == dayPct && p.weekPct == weekPct
    ensures Derived(p)
  {
    var pctVsBuy, pctVsRef := PctChange(current, buy), PctChange(current, refPrice);
    var costBasis, currentValue, dayDollar := Mul(units, buy), Mul(units, current), Mul(units, dayChange);
    Position(name, symbol, units, buy, current, refPrice, target, dayChange, dayPct, weekPct,
             pctVsBuy, pctVsRef, costBasis, currentValue, dayDollar)
  }

  /**
   * What the derived figures of a position mean: the percent changes restore the current
   * price from their base, and each position-scale amount is the units times its operand,
   * unknown exactly when one of them is.
   */
  ghost predicate Derived(p: Position) {
    && (p.pctVsBuy.Some? <==> p.current.Some? && p.buy.Some? && p.buy.value != 0.0)
    && (p.pctVsBuy.Some? ==> Restores(p.buy.value, p.pctVsBuy.value, p.current.value))
    && (p.pctVsRef.Some? <==> p.current.Some? && p.refPrice.Some? && p.refPrice.value != 0.0)
    && (p.pctVsRef.Some? ==> Restores(p.refPrice.value, p.pctVsRef.value, p.current.value))
    && (p.costBasis.Some? <==> p.units.Some? && p.buy.Some?)
    && (p.costBasis.Some? ==> IsProduct(p.costBasis.value, p.units.value, p.buy.value))
    && (p.currentValue.Some? <==> p.units.Some? && p.current.Some?)
    && (p.currentValue.Some? ==> IsProduct(p.currentValue.value, p.units.value, p.current.value))
    && (p.dayDollar.Some? <==> p.units.Some? && p.dayChange.Some?)
    && (p.dayDollar.Some? ==> IsProduct(p.dayDollar.value, p.units.value, p.dayChange.value))
  }

  /** The join of every row, in order (the column assignments applied row by row). */
  function JoinAll(rows: seq<Row>, quotes: map<string, Quote>): (ps: seq<Position>)
    ensures |ps| == |rows| && forall i :: 0 <= i < |rows| ==> ps[i] == Join(rows[i], quotes)
  {
    seq(|rows|, i requires 0 <= i < |rows| => Join(rows[i], quotes))
  }

  /** `Units.fillna(0) > 0`: a row is a holding when its units are known and positive. */
  predicate IsHolding(p: Position) {
    p.units.GetOr(0.0) > 0.0
  }

  /** A row whose quote is missing keeps the snapshot price and has no day or week movement. */
  lemma UnresolvedFallsBack(row: Row, quotes: map<string, Quote>)
    requires Normalize(row.symbol) !in quotes
    ensures Join(row, quotes).current == ParseMoney(row.currentPrice)
    ensures Join(row, quotes).dayChange.None? && Join(row, quotes).dayPct.None?
    ensures Join(row, quotes).weekPct.None? && Join(row, quotes).dayDollar.None?
  {
  }

  /** An unknown or zero buy price leaves the percent versus buy unknown rather than failing. */
  lemma NoBuyNoPct(row: Row, quotes: map<string, Quote>)
    requires ParseMoney(row.buyPrice).None? || ParseMoney(row.buyPrice) == Some(0.0)
    ensures Join(row, quotes).pctVsBuy.None?
  {
  }

  /** The sort key of the holdings table. */
  function PctVsBuyKey(p: Position): Option<real> {
    p.pctVsBuy
  }

  /** The columns the totals add up. */
  function CostBasisOf(p: Position): Option<real> { p.costBasis }
  function CurrentValueOf(p: Position): Option<real> { p.currentValue }
  function DayDollarOf(p: Position): Option<real> { p.dayDollar }

  /**
   * `df[df["Units"].fillna(0) > 0].sort_values("Pct_vs_buy")`: the rows with positive units,
   * each as often as it occurs, ordered by percent versus buy with unknowns last.
   */
  function Holdings(ps: seq<Position>): (h: seq<Position>)
    ensures SortedOn(h, PctVsBuyKey)
    ensures multiset(h) == multiset(Filter(ps, IsHolding))
    ensures forall p :: p in h <==> p in ps && IsHolding(p)
  {
    var kept := Filter(ps, IsHolding);
    var h := SortOn(kept, PctVsBuyKey);
    assert forall p :: p in h <==> p in kept by {
      forall p ensures p in h <==> p in kept {
        assert p in h <==> p in multiset(h);
        assert p in kept <==> p in multiset(kept);
      }
    }
    h
  }

  /**
   * A column summed over the holdings is the column summed over all rows with the rows
   * that are not holdings left out: the order of the holdings does not matter.
   */
  lemma HoldingsSum(ps: seq<Position>, f: Position -> Option<real>, g: Position -> Option<real>)
    requires forall p :: g(p) == if IsHolding(p) then f(p) else None
    ensures SumOf(Holdings(ps), f) == SumOf(ps, g)
  {
    SumOfPermutation(Holdings(ps), Filter(ps, IsHolding), f);
    SumOfFilter(ps, IsHolding, f, g);
  }

  /** A column has a known value among the holdings exactly when it has one on a row with positive units. */
  lemma HoldingsDefined(ps: seq<Position>, f: Position -> Option<real>)
    ensures AnyDefined(Holdings(ps), f) <==> exists i :: 0 <= i < |ps| && IsHolding(ps[i]) && f(ps[i]).Some?
  {
    var h := Holdings(ps);
    if AnyDefined(h, f) {
      var i :| 0 <= i < |h| && f(h[i]).Some?;
      assert h[i] in ps && IsHolding(h[i]);
      var j :| 0 <= j < |ps| && ps[j] == h[i];
      assert IsHolding(ps[j]) && f(ps[j]).Some?;
    }
    if exists i :: 0 <= i < |ps| && IsHolding(ps[i]) && f(ps[i]).Some? {
      var i :| 0 <= i < |ps| && IsHolding(ps[i]) && f(ps[i]).Some?;
      assert ps[i] in h;
      var j :| 0 <= j < |h| && h[j] == ps[i];
      assert f(h[j]).Some?;
      assert AnyDefined(h, f);
    }
  }

  /** The symbol column of the sheet. */
  function SymbolColumn(rows: seq<Row>): (r: seq<string>)
    ensures |r| == |rows| && forall i :: 0 <= i < |rows| ==> r[i] == rows[i].symbol
  {
    seq(|rows|, i requires 0 <= i < |rows| => rows[i].symbol)
  }

  /** What resolving the sheet's symbols promises: each distinct symbol is resolved exactly when its one request answered. */
  ghost predicate ResolvedSheet(rows: seq<Row>, download: Request -> Download, cfg: Config, quotes: map<string, Quote>) {
    var symbols := SymbolsToFetch(SymbolColumn(rows));
    && (forall k :: k in quotes ==> k in symbols)
    && (forall j :: 0 <= j < |symbols| ==>
          var answer := Answer(download, cfg, symbols[j], j);
          (symbols[j] in quotes <==> answer.Some?) && (answer.Some? ==> quotes[symbols[j]] == answer.value))
  }

  /**
   * The first step of both builds: the distinct normalised symbols of the sheet, without
   * blanks and "NAN", are resolved, each requested once and in order of first appearance.
   */
  method ResolveSheet(rows: seq<Row>, download: Request -> Download, cfg: Config) returns (quotes: map<string, Quote>)
    ensures ResolvedSheet(rows, download, cfg, quotes)
  {
    var symbols := SymbolsToFetch(SymbolColumn(rows));
    SymbolsToFetchAreDistinct(SymbolColumn(rows));
    var calls;
    quotes, calls := FetchQuotes(symbols, download, cfg);
    ResolvedOnce(symbols, quotes, calls, download, cfg);
  }

  /** A quote resolved in the sheet came from a download with the variant's settings; in the two-session variant it has no week figure. */
  lemma ResolvedHaveNoWeek(rows: seq<Row>, download: Request -> Download, quotes: map<string, Quote>)
    requires ResolvedSheet(rows, download, MvpConfig, quotes)
    ensures forall k :: k in quotes ==> quotes[k].weekPct.None?
  {
    var symbols := SymbolsToFetch(SymbolColumn(rows));
    forall k | k in quotes ensures quotes[k].weekPct.None? {
      var j :| 0 <= j < |symbols| && symbols[j] == k;
      assert Answer(download, MvpConfig, symbols[j], j).Some?;
    }
  }
}
