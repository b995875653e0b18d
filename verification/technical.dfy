/**
 * The technical-analysis strategy that turns a price table into buy and
 * sell flags. The indicator columns (ADX, Bollinger bands, SMA) come from
 * a foreign indicator engine and are taken as given; what is modelled is
 * the trailing-stop column, the crossing rules that compare each row with
 * the row two positions earlier (`shift(2)`), and the empty-table
 * handling around them.
 *
 * A missing table cell (NaN) is `None`; every comparison with a missing
 * cell is false, as it is for NaN.
 */
module Technical {
  import opened Common

  /** One row of the price table handed to the strategy. */
  datatype PriceRow = PriceRow(
    date: Date,
    symbol: Ticker,
    open: real,
    high: real,
    low: real,
    close: real,
    volume: real)

  /** The engine-computed indicator cells of one row. */
  datatype Indicators = Indicators(
    adx: Option<real>,
    sma: Option<real>,
    lower: Option<real>,
    middle: Option<real>,
    upper: Option<real>)

  /** One row of the analysed table; `buy` and `sell` are 1 or missing. */
  datatype AnalysedRow = AnalysedRow(
    price: PriceRow,
    ind: Indicators,
    trailingStop: real,
    buy: Option<int>,
    sell: Option<int>)

  /**
   * The foreign indicator computation: one `Indicators` per price row, or
   * `None` when it raises.
   */
  type Engine = seq<PriceRow> -> Option<seq<Indicators>>

  /** The trailing stop sits at 90% of the row's close. */
  const TrailingStopRatio: real := 0.9

  predicate Gt(a: Option<real>, b: Option<real>)
  {
    a.Some? && b.Some? && a.value > b.value
  }

  predicate Lt(a: Option<real>, b: Option<real>)
  {
    a.Some? && b.Some? && a.value < b.value
  }

  predicate Le(a: Option<real>, b: Option<real>)
  {
    a.Some? && b.Some? && a.value <= b.value
  }

  /** The columns the crossing rules read. */
  datatype Column = Close | Sma | Lower | Middle

  /** A cell of a row that may itself be missing (a shifted-in NaN row). */
  function Cell(row: Option<AnalysedRow>, c: Column): Option<real>
  {
    match row
    case None => None
    case Some(r) =>
      match c
      case Close => Some(r.price.close)
      case Sma => r.ind.sma
      case Lower => r.ind.lower
      case Middle => r.ind.middle
  }

  /** Row `i` of `dataframe.shift(2)`: the row two positions earlier, if any. */
  function Shift2(rows: seq<AnalysedRow>, i: nat): Option<AnalysedRow>
    requires i < |rows|
  {
    if i >= 2 then Some(rows[i - 2]) else None
  }

  // ---------------------------------------------------------------------
  // The crossing rules, stated on a row and the row two positions earlier
  // ---------------------------------------------------------------------

  /** close > middle band now, and close <= middle band two rows earlier. */
  predicate CloseUpThroughMiddle(close: real, ind: Indicators, prevClose: real, prev: Indicators)
  {
    ind.middle.Some? && prev.middle.Some?
    && close > ind.middle.value && prevClose <= prev.middle.value
  }

  /** close > lower band now, and close < lower band two rows earlier. */
  predicate CloseUpThroughLower(close: real, ind: Indicators, prevClose: real, prev: Indicators)
  {
    ind.lower.Some? && prev.lower.Some?
    && close > ind.lower.value && prevClose < prev.lower.value
  }

  /** sma > middle band now, and sma <= middle band two rows earlier. */
  predicate SmaUpThroughMiddle(ind: Indicators, prev: Indicators)
  {
    ind.sma.Some? && ind.middle.Some? && prev.sma.Some? && prev.middle.Some?
    && ind.sma.value > ind.middle.value && prev.sma.value <= prev.middle.value
  }

  /** close < middle band now, and close > middle band two rows earlier. */
  predicate CloseDownThroughMiddle(close: real, ind: Indicators, prevClose: real, prev: Indicators)
  {
    ind.middle.Some? && prev.middle.Some?
    && close < ind.middle.value && prevClose > prev.middle.value
  }

  /** close < lower band now, and close > lower band two rows earlier. */
  predicate CloseDownThroughLower(close: real, ind: Indicators, prevClose: real, prev: Indicators)
  {
    ind.lower.Some? && prev.lower.Some?
    && close < ind.lower.value && prevClose > prev.lower.value
  }

  predicate BuyRule(close: real, ind: Indicators, prevClose: real, prev: Indicators)
  {
    CloseUpThroughMiddle(close, ind, prevClose, prev)
    || CloseUpThroughLower(close, ind, prevClose, prev)
    || SmaUpThroughMiddle(ind, prev)
  }

  predicate SellRule(close: real, ind: Indicators, prevClose: real, prev: Indicators)
  {
    CloseDownThroughMiddle(close, ind, prevClose, prev)
    || CloseDownThroughLower(close, ind, prevClose, prev)
  }

  /** A row fires the buy rule against the row two positions earlier. */
  predicate BuysAt(rows: seq<AnalysedRow>, i: nat)
    requires i < |rows|
  {
    i >= 2 && BuyRule(rows[i].price.close, rows[i].ind, rows[i - 2].price.close, rows[i - 2].ind)
  }

  /** A row fires the sell rule against the row two positions earlier. */
  predicate SellsAt(rows: seq<AnalysedRow>, i: nat)
    requires i < |rows|
  {
    i >= 2 && SellRule(rows[i].price.close, rows[i].ind, rows[i - 2].price.close, rows[i - 2].ind)
  }

  // ---------------------------------------------------------------------
  // The strategy's table operations
  // ---------------------------------------------------------------------

  /**
   * `populate_indicators`, reduced to what is not foreign: the engine's
   * cells are attached row by row and the trailing stop is 0.9 * close.
   */
  function PopulateIndicators(prices: seq<PriceRow>, ind: seq<Indicators>): (r: seq<AnalysedRow>)
    requires |ind| == |prices|
    ensures |r| == |prices|
    ensures forall i :: 0 <= i < |r| ==>
      && r[i].price == prices[i]
      && r[i].ind == ind[i]
      && r[i].buy.None? && r[i].sell.None?
      && r[i].trailingStop * 10.0 == prices[i].close * 9.0
  {
    seq(|prices|, i requires 0 <= i < |prices| =>
      AnalysedRow(prices[i], ind[i], prices[i].close * TrailingStopRatio, None, None))
  }

  /**
   * `populate_buy_trend`: the rows matching the buy condition against the
   * shifted frame get buy = 1; nothing else is written.
   */
  function PopulateBuyTrend(rows: seq<AnalysedRow>): (r: seq<AnalysedRow>)
    ensures |r| == |rows|
    ensures forall i :: 0 <= i < |r| ==> r[i] == rows[i].(buy := r[i].buy)
    ensures forall i :: 0 <= i < |r| ==> r[i].buy == if BuysAt(rows, i) then Some(1) else rows[i].buy
    ensures forall i :: 0 <= i < |r| && i < 2 ==> r[i] == rows[i]
  {
    seq(|rows|, i requires 0 <= i < |rows| =>
      var cur, prev := Some(rows[i]), Shift2(rows, i);
      if || (Gt(Cell(cur, Close), Cell(cur, Middle)) && Le(Cell(prev, Close), Cell(prev, Middle)))
         || (Gt(Cell(cur, Close), Cell(cur, Lower)) && Lt(Cell(prev, Close), Cell(prev, Lower)))
         || (Gt(Cell(cur, Sma), Cell(cur, Middle)) && Le(Cell(prev, Sma), Cell(prev, Middle)))
      then rows[i].(buy := Some(1))
      else rows[i])
  }

  /**
   * `populate_sell_trend`: the rows matching the sell condition against the
   * shifted frame get sell = 1; nothing else is written.
   */
  function PopulateSellTrend(rows: seq<AnalysedRow>): (r: seq<AnalysedRow>)
    ensures |r| == |rows|
    ensures forall i :: 0 <= i < |r| ==> r[i] == rows[i].(sell := r[i].sell)
    ensures forall i :: 0 <= i < |r| ==> r[i].sell == if SellsAt(rows, i) then Some(1) else rows[i].sell
    ensures forall i :: 0 <= i < |r| && i < 2 ==> r[i] == rows[i]
  {
    seq(|rows|, i requires 0 <= i < |rows| =>
      var cur, prev := Some(rows[i]), Shift2(rows, i);
      if || (Lt(Cell(cur, Close), Cell(cur, Middle)) && Gt(Cell(prev, Close), Cell(prev, Middle)))
         || (Lt(Cell(cur, Close), Cell(cur, Lower)) && Gt(Cell(prev, Close), Cell(prev, Lower)))
      then rows[i].(sell := Some(1))
      else rows[i])
  }

  /**
   * `analyze_ticker`: indicators, then the buy flags, then the sell flags.
   * Each flag is 1 exactly on the rows whose rule fires against the row two
   * earlier, and missing everywhere else, rows 0 and 1 included.
   */
  function AnalyzeTicker(prices: seq<PriceRow>, ind: seq<Indicators>): (r: seq<AnalysedRow>)
    requires |ind| == |prices|
    ensures |r| == |prices|
    ensures forall i :: 0 <= i < |r| ==> AnalysedAs(r[i], prices, ind, i)
  {
    var r := PopulateSellTrend(PopulateBuyTrend(PopulateIndicators(prices, ind)));
    assert forall i :: 0 <= i < |r| ==> AnalysedAs(r[i], prices, ind, i) by {
      forall i | 0 <= i < |r|
        ensures AnalysedAs(r[i], prices, ind, i)
      {
        AnalysedRowAt(prices, ind, i);
      }
    }
    r
  }

  /**
   * Row `i` of the analysis: its prices and indicator cells, a trailing
   * stop of nine tenths of the close, and buy (sell) = 1 exactly when
   * i >= 2 and the buy (sell) rule holds between rows i and i - 2, missing
   * otherwise.
   */
  predicate AnalysedAs(row: AnalysedRow, prices: seq<PriceRow>, ind: seq<Indicators>, i: nat)
    requires |ind| == |prices| && i < |prices|
  {
    && row.price == prices[i]
    && row.ind == ind[i]
    && row.trailingStop * 10.0 == prices[i].close * 9.0
    && row.buy == (if i >= 2 && BuyRule(prices[i].close, ind[i], prices[i - 2].close, ind[i - 2]) then Some(1) else None)
    && row.sell == (if i >= 2 && SellRule(prices[i].close, ind[i], prices[i - 2].close, ind[i - 2]) then Some(1) else None)
  }

  lemma AnalysedRowAt(prices: seq<PriceRow>, ind: seq<Indicators>, i: nat)
    requires |ind| == |prices| && i < |prices|
    ensures AnalysedAs(PopulateSellTrend(PopulateBuyTrend(PopulateIndicators(prices, ind)))[i], prices, ind, i)
  {
    var base := PopulateIndicators(prices, ind);
    var withBuy := PopulateBuyTrend(base);
    if i >= 2 {
      assert withBuy[i - 2].price == base[i - 2].price && withBuy[i - 2].ind == base[i - 2].ind;
    }
  }

  /**
   * No row crosses the middle band upwards and downwards at once, so the
   * two middle-band clauses never flag the same row for buy and for sell.
   */
  lemma MiddleClausesExclusive(close: real, ind: Indicators, prevClose: real, prev: Indicators)
    ensures !(CloseUpThroughMiddle(close, ind, prevClose, prev) && CloseDownThroughMiddle(close, ind, prevClose, prev))
  {
  }

  /**
   * `get_historical_signals`: an empty table for an empty history or when
   * the analysis raises (the engine fails, or returns a column of the wrong
   * length), otherwise the analysed table, row for row.
   */
  function GetHistoricalSignals(prices: seq<PriceRow>, engine: Engine): (r: seq<AnalysedRow>)
    ensures r == [] <==> prices == [] || engine(prices).None? || |engine(prices).value| != |prices|
    ensures r != [] ==> |r| == |prices| && forall i :: 0 <= i < |r| ==> r[i].price == prices[i]
    ensures r != [] ==> r == AnalyzeTicker(prices, engine(prices).value)
  {
    if prices == [] then []
    else
      match engine(prices)
      case None => []
      case Some(ind) => if |ind| != |prices| then [] else AnalyzeTicker(prices, ind)
  }

  /**
   * `get_signal`: (false, false) when the analysed table is empty; otherwise
   * whether the last row carries buy = 1 and sell = 1, that is, whether the
   * latest row crosses against the row two before it.
   */
  function GetSignal(history: seq<PriceRow>, engine: Engine): (r: (bool, bool))
    ensures GetHistoricalSignals(history, engine) == [] ==> r == (false, false)
    ensures r.0 <==>
      && |history| >= 3
      && engine(history).Some? && |engine(history).value| == |history|
      && var n, ind := |history| - 1, engine(history).value;
         BuyRule(history[n].close, ind[n], history[n - 2].close, ind[n - 2])
    ensures r.1 <==>
      && |history| >= 3
      && engine(history).Some? && |engine(history).value| == |history|
      && var n, ind := |history| - 1, engine(history).value;
         SellRule(history[n].close, ind[n], history[n - 2].close, ind[n - 2])
  {
    var table := GetHistoricalSignals(history, engine);
    if table == [] then (false, false)
    else
      var latest := table[|table| - 1];
      (latest.buy == Some(1), latest.sell == Some(1))
  }
}
