/**
 * The Bollinger-band strategy of the bands-cross backtest: a FLAT/LONG
 * machine for one ticker, fed one bar event at a time. Each handled bar
 * appends its signal rows to the history; a flat position opens on buy,
 * an open position closes on sell or on one of two exit rules, tried in
 * order: the SMA crossing down through the middle band, then the trailing
 * stop (the highest trailing-stop level since entry, gated by ADX > 10).
 */
module BandsStrategy {
  import opened Common
  import opened BarStream
  import opened Technical
  import opened PriceHandler

  /** The events the strategy sees: bar events, and anything else. */
  datatype Event = BarArrived(bar: BarEvent) | OtherEvent

  datatype Action = Bot | Sld

  /** A signal event handed to the order side: ticker, side and quantity. */
  datatype Intent = Intent(ticker: Ticker, action: Action, quantity: int)

  /** The exit rule that fired, in the order they are tried. */
  datatype ExitReason = NoExit | TrendCross | TrailingStop

  datatype StepError = MissingSignal   // `signal['buy'][0]` of an empty frame

  /** The trailing stop only exits while ADX exceeds this level. */
  const AdxThreshold: real := 10.0

  /** The strategy's state: position, entry day and the signal history. */
  datatype State = State(
    ticker: Ticker,
    baseQuantity: int,
    invested: bool,
    entryTime: Option<Date>,
    history: seq<SignalRow>)

  /**
   * An open position has an entry day, and that day is the date of a buy
   * row in the history.
   */
  predicate Inv(s: State)
  {
    s.invested ==>
      && s.entryTime.Some?
      && exists k :: 0 <= k < |s.history| && s.history[k].date == s.entryTime.value && s.history[k].buy == 1
  }

  /** The strategy starts flat, with no entry day and an empty history. */
  function Init(ticker: Ticker, baseQuantity: int): (s: State)
    ensures Inv(s)
    ensures !s.invested && s.entryTime.None? && s.history == []
    ensures s.ticker == ticker && s.baseQuantity == baseQuantity
  {
    State(ticker, baseQuantity, false, None, [])
  }

  /** The bar events this strategy acts on: bars of its own ticker. */
  predicate Handles(ticker: Ticker, ev: Event)
  {
    ev.BarArrived? && ev.bar.ticker == ticker
  }

  /**
   * The event's signal rows whose symbol is the event's ticker, in the
   * event's order.
   */
  function RowsOf(rows: seq<SignalRow>, ticker: Ticker): (r: seq<SignalRow>)
    ensures |r| <= |rows|
    ensures forall x :: x in r ==> x in rows && x.symbol == ticker
    ensures rows != [] && rows[0].symbol == ticker ==> r != [] && r[0] == rows[0]
  {
    if rows == [] then []
    else if rows[0].symbol == ticker then [rows[0]] + RowsOf(rows[1..], ticker)
    else RowsOf(rows[1..], ticker)
  }

  /**
   * The filter drops nothing of the ticker's: every row with the ticker's
   * symbol is kept as often as the event carries it, and no other row.
   */
  lemma {:induction false} RowsOfCounts(rows: seq<SignalRow>, ticker: Ticker)
    ensures forall x :: multiset(RowsOf(rows, ticker))[x] == if x.symbol == ticker then multiset(rows)[x] else 0
    decreases |rows|
  {
    if rows != [] {
      MultisetTail(rows);
      RowsOfCounts(rows[1..], ticker);
    }
  }

  /** Row `k` is the first of the rows with the given symbol. */
  predicate FirstOwn(rows: seq<SignalRow>, k: int, ticker: Ticker)
  {
    && 0 <= k < |rows| && rows[k].symbol == ticker
    && forall j :: 0 <= j < k ==> rows[j].symbol != ticker
  }

  /**
   * The filter keeps the event's order: the row the strategy reads is the
   * first row carrying the strategy's ticker.
   */
  lemma {:induction false} RowsOfFirst(rows: seq<SignalRow>, ticker: Ticker, k: nat)
    requires FirstOwn(rows, k, ticker)
    ensures RowsOf(rows, ticker) != [] && RowsOf(rows, ticker)[0] == rows[k]
    decreases k
  {
    if k > 0 {
      assert FirstOwn(rows[1..], k - 1, ticker) by {
        forall j | 0 <= j < k - 1
          ensures rows[1..][j].symbol != ticker
        {
          assert rows[1..][j] == rows[j + 1];
        }
      }
      RowsOfFirst(rows[1..], ticker, k - 1);
    }
  }

  /** The signal rows a bar event contributes to the history. */
  function SignalOf(ev: BarEvent): seq<SignalRow>
  {
    RowsOf(ev.signal, ev.ticker)
  }

  // ---------------------------------------------------------------------
  // The exit rules
  // ---------------------------------------------------------------------

  /**
   * The trend-cross exit: with more than two history rows, the last row's
   * sma is strictly below its middle band and the row before it had sma
   * strictly above its middle band. A missing band never crosses.
   */
  predicate TrendCrossExit(h: seq<SignalRow>)
  {
    && |h| > 2
    && var cur, prev := h[|h| - 1], h[|h| - 2];
       && cur.middle.Some? && cur.sma < cur.middle.value
       && prev.middle.Some? && prev.sma > prev.middle.value
  }

  /** `max(trailing_stop)` over the history rows dated on or after `since`. */
  function TrailingHigh(h: seq<SignalRow>, since: Date): (m: Option<real>)
    ensures m.None? <==> forall k :: 0 <= k < |h| ==> h[k].date < since
    ensures m.Some? ==> exists k :: 0 <= k < |h| && h[k].date >= since && h[k].trailingStop == m.value
    ensures m.Some? ==> forall k :: 0 <= k < |h| && h[k].date >= since ==> h[k].trailingStop <= m.value
  {
    if h == [] then None
    else
      var rest := TrailingHigh(h[1..], since);
      assert forall k :: 1 <= k < |h| ==> h[k] == h[1..][k - 1];
      if h[0].date < since then rest
      else match rest
        case None => Some(h[0].trailingStop)
        case Some(v) => if h[0].trailingStop >= v then Some(h[0].trailingStop) else Some(v)
  }

  /**
   * The trailing-stop exit: the current close is below the highest
   * trailing stop since entry, and ADX is above the threshold.
   */
  predicate TrailingStopExit(h: seq<SignalRow>, since: Date, cur: SignalRow)
  {
    match TrailingHigh(h, since)
    case None => false
    case Some(high) => cur.close < high && cur.adx.Some? && cur.adx.value > AdxThreshold
  }

  /**
   * The exit decision of `calculate_signals`: only an open position exits;
   * the trend cross wins whenever it fires; otherwise the trailing stop
   * fires exactly when some row since entry has a trailing stop above the
   * current close while ADX is above the threshold.
   */
  function ExitRule(s: State, h: seq<SignalRow>, cur: SignalRow): (r: ExitReason)
    requires Inv(s)
    ensures !s.invested ==> r == NoExit
    ensures r == TrendCross <==> s.invested && TrendCrossExit(h)
    ensures r == TrailingStop <==>
      && s.invested && !TrendCrossExit(h)
      && cur.adx.Some? && cur.adx.value > AdxThreshold
      && exists k :: 0 <= k < |h| && h[k].date >= s.entryTime.value && cur.close < h[k].trailingStop
  {
    if !s.invested then NoExit
    else if TrendCrossExit(h) then TrendCross
    else if TrailingStopExit(h, s.entryTime.value, cur) then TrailingStop
    else NoExit
  }

  // ---------------------------------------------------------------------
  // One bar
  // ---------------------------------------------------------------------

  /**
   * `calculate_signals` for one event. Events other than bars of the
   * strategy's ticker change nothing. A handled bar appends its signal rows
   * to the history before anything is decided; with no signal row it
   * raises. At most one intent is emitted, for the base quantity, and an
   * intent is emitted exactly when the position flips: BOT when a flat
   * position sees buy = 1 (the entry day becomes that row's date), SLD
   * when an open position sees sell = 1 or an exit rule fires.
   */
  function Step(s: State, ev: Event): (r: Result<(State, seq<Intent>), StepError>)
    requires Inv(s)
    ensures r.Ok? ==> Inv(r.value.0)
    ensures r.Ok? ==> r.value.0.ticker == s.ticker && r.value.0.baseQuantity == s.baseQuantity
    ensures r.Ok? ==> |r.value.1| <= 1
    ensures r.Ok? && r.value.1 == [] ==> r.value.0.invested == s.invested && r.value.0.entryTime == s.entryTime
    ensures r.Ok? && r.value.1 != [] ==>
      && r.value.0.invested == !s.invested
      && r.value.1[0] == Intent(s.ticker, if s.invested then Sld else Bot, s.baseQuantity)
    ensures !Handles(s.ticker, ev) ==> r == Ok((s, []))
    ensures Handles(s.ticker, ev) ==> (r.Err? <==> SignalOf(ev.bar) == [])
    ensures Handles(s.ticker, ev) && r.Ok? ==> r.value.0.history == s.history + SignalOf(ev.bar)
    ensures Handles(s.ticker, ev) && r.Ok? && !s.invested ==>
      var cur := SignalOf(ev.bar)[0];
      && (r.value.1 != [] <==> cur.buy == 1)
      && (cur.buy == 1 ==> r.value.0.entryTime == Some(cur.date))
    ensures Handles(s.ticker, ev) && r.Ok? && s.invested ==>
      var cur := SignalOf(ev.bar)[0];
      var h := s.history + SignalOf(ev.bar);
      r.value.1 != [] <==> cur.sell == 1 || TrendCrossExit(h) || TrailingStopExit(h, s.entryTime.value, cur)
  {
    if !Handles(s.ticker, ev) then Ok((s, []))
    else
      var sig := SignalOf(ev.bar);
      var h := s.history + sig;
      if sig == [] then Err(MissingSignal)
      else
        var cur := sig[0];
        var exit := ExitRule(s, h, cur);
        if cur.buy == 1 && !s.invested then
          assert h[|s.history|] == cur;
          Ok((s.(invested := true, entryTime := Some(cur.date), history := h), [Intent(s.ticker, Bot, s.baseQuantity)]))
        else if (cur.sell == 1 || exit != NoExit) && s.invested then
          Ok((s.(invested := false, history := h), [Intent(s.ticker, Sld, s.baseQuantity)]))
        else
          assert forall k :: 0 <= k < |s.history| ==> h[k] == s.history[k];
          Ok((s.(history := h), []))
  }

  // ---------------------------------------------------------------------
  // A run of events
  // ---------------------------------------------------------------------

  /**
   * The intents alternate BOT and SLD, starting with BOT from a flat
   * position and with SLD from an open one.
   */
  predicate Alternating(out: seq<Intent>, startInvested: bool)
  {
    forall i :: 0 <= i < |out| ==> out[i].action == if (i % 2 == 0) == !startInvested then Bot else Sld
  }

  /**
   * The strategy over a sequence of events, stopping at the first that
   * raises. There is no re-entry and no double exit: the intents
   * alternate, and the final position is the start position flipped once
   * per intent.
   */
  function Run(s: State, events: seq<Event>): (r: Result<(State, seq<Intent>), StepError>)
    requires Inv(s)
    ensures r.Ok? ==> Inv(r.value.0) && r.value.0.ticker == s.ticker && r.value.0.baseQuantity == s.baseQuantity
    ensures r.Ok? ==> Alternating(r.value.1, s.invested)
    ensures r.Ok? ==> r.value.0.invested == (s.invested != (|r.value.1| % 2 == 1))
    ensures r.Ok? ==> forall i :: 0 <= i < |r.value.1| ==> r.value.1[i].ticker == s.ticker && r.value.1[i].quantity == s.baseQuantity
    decreases |events|
  {
    if events == [] then Ok((s, []))
    else
      match Step(s, events[0])
      case Err(e) => Err(e)
      case Ok((s1, out1)) =>
        match Run(s1, events[1..])
        case Err(e) => Err(e)
        case Ok((s2, out2)) =>
          AlternatingAfterStep(s.invested, s1.invested, out1, s2.invested, out2);
          Ok((s2, out1 + out2))
  }

  /**
   * One step's intent followed by an alternating run is alternating from
   * the step's start, and the parity of the position carries through.
   */
  lemma AlternatingAfterStep(p0: bool, p1: bool, out1: seq<Intent>, p2: bool, out2: seq<Intent>)
    requires |out1| <= 1
    requires out1 == [] ==> p1 == p0
    requires out1 != [] ==> p1 == !p0 && out1[0].action == if p0 then Sld else Bot
    requires Alternating(out2, p1)
    requires p2 == (p1 != (|out2| % 2 == 1))
    ensures Alternating(out1 + out2, p0)
    ensures p2 == (p0 != (|out1 + out2| % 2 == 1))
  {
    var out := out1 + out2;
    forall i | 0 <= i < |out|
      ensures out[i].action == if (i % 2 == 0) == !p0 then Bot else Sld
    {
      if |out1| == 1 && i >= 1 {
        assert out[i] == out2[i - 1];
      } else if |out1| == 0 {
        assert out[i] == out2[i];
      }
    }
  }

  /**
   * What the strategy reads from the handler: when no file repeats a day,
   * the i-th bar event of a constructed handler contributes exactly the
   * signal row computed from streamed bar i, so its buy (sell) flag is 1
   * exactly when the buy (sell) rule holds between bars i and i - 2.
   */
  lemma EventSignalFollowsRules(init: seq<Ticker>, files: CsvFiles, start: Option<Date>, end: Option<Date>, engine: Engine, i: nat)
    requires UniqueDates(files)
    requires Construct(init, files, start, end, engine).Ok?
    requires i < |Construct(init, files, start, end, engine).value.stream|
    ensures var h := Construct(init, files, start, end, engine).value;
      && engine(PriceTable(h.stream)).Some? && |engine(PriceTable(h.stream)).value| == |h.stream|
      && SignalOf(Replay(h).1[i]) == [h.signals[i]]
      && SignalRowFor(h.signals[i], h.stream, engine(PriceTable(h.stream)).value, i)
  {
    var h := Construct(init, files, start, end, engine).value;
    assert Replay(h).1[i].signal == [h.signals[i]] by {
      AttachmentExactlyOnce(init, files, start, end, engine);
    }
    OwnSignal(h, i);
    assert h.signals == FillSignals(GetHistoricalSignals(PriceTable(h.stream), engine));
    SignalTableRows(h.stream, engine);
  }

  /** A bar event carrying only its own bar's signal row contributes that row. */
  lemma OwnSignal(h: Handler, i: nat)
    requires Valid(h) && i < |h.stream| && i < |h.signals|
    requires h.signals[i].symbol == h.stream[i].ticker
    requires Replay(h).1[i].signal == [h.signals[i]]
    ensures SignalOf(Replay(h).1[i]) == [h.signals[i]]
  {
    var ev := Replay(h).1[i];
    assert ev.ticker == h.stream[i].ticker;
    assert [h.signals[i]][1..] == [];
  }

  /** Every bar of the ticker carries a signal row, and none of them says buy. */
  predicate NoBuys(ticker: Ticker, events: seq<Event>)
  {
    forall i :: 0 <= i < |events| && Handles(ticker, events[i]) ==>
      SignalOf(events[i].bar) != [] && SignalOf(events[i].bar)[0].buy != 1
  }

  /**
   * A flat strategy that never sees buy = 1 stays flat and emits nothing,
   * whatever the sell flags and exit conditions say.
   */
  lemma {:induction false} FlatWithoutBuys(s: State, events: seq<Event>)
    requires Inv(s) && !s.invested
    requires NoBuys(s.ticker, events)
    ensures Run(s, events).Ok?
    ensures Run(s, events).value.1 == []
    ensures !Run(s, events).value.0.invested && Run(s, events).value.0.entryTime == s.entryTime
    decreases |events|
  {
    if events != [] {
      var r := Step(s, events[0]);
      assert Handles(s.ticker, events[0]) ==> SignalOf(events[0].bar) != [];
      var (s1, out1) := r.value;
      assert out1 == [];
      assert NoBuys(s1.ticker, events[1..]) by {
        forall i | 0 <= i < |events[1..]| && Handles(s1.ticker, events[1..][i])
          ensures SignalOf(events[1..][i].bar) != [] && SignalOf(events[1..][i].bar)[0].buy != 1
        {
          assert events[1..][i] == events[i + 1];
        }
      }
      FlatWithoutBuys(s1, events[1..]);
    }
  }

  /**
   * Entry determinism: from flat, when the first buy = 1 among the ticker's
   * bars is at event `k`, the run up to and including `k` emits exactly one
   * BOT for the base quantity, and the entry day is that row's date.
   */
  lemma {:induction false} FirstBuyOpens(s: State, events: seq<Event>, k: nat)
    requires Inv(s) && !s.invested
    requires k < |events|
    requires NoBuys(s.ticker, events[..k])
    requires Handles(s.ticker, events[k])
    requires SignalOf(events[k].bar) != [] && SignalOf(events[k].bar)[0].buy == 1
    ensures Run(s, events[..k + 1]).Ok?
    ensures Run(s, events[..k + 1]).value.1 == [Intent(s.ticker, Bot, s.baseQuantity)]
    ensures Run(s, events[..k + 1]).value.0.invested
    ensures Run(s, events[..k + 1]).value.0.entryTime == Some(SignalOf(events[k].bar)[0].date)
    decreases k
  {
    var prefix := events[..k + 1];
    if k == 0 {
      OpensAtFirst(s, prefix);
      assert prefix[0] == events[0];
    } else {
      assert Step(s, events[0]).Ok? && Step(s, events[0]).value.1 == [] by {
        assert events[..k][0] == events[0];
      }
      var s1 := Step(s, events[0]).value.0;
      var rest := events[1..];
      assert Run(s, prefix) == Run(s1, rest[..k]) by {
        assert prefix[0] == events[0];
        assert prefix[1..] == rest[..k];
        RunSilentStep(s, prefix);
      }
      assert NoBuys(s1.ticker, rest[..k - 1]) by {
        var before := rest[..k - 1];
        forall i | 0 <= i < |before|
          ensures Handles(s1.ticker, before[i]) ==>
            SignalOf(before[i].bar) != [] && SignalOf(before[i].bar)[0].buy != 1
        {
          assert before[i] == events[..k][i + 1];
        }
      }
      assert rest[k - 1] == events[k];
      FirstBuyOpens(s1, rest, k - 1);
    }
  }

  /** A buy = 1 on the first event opens the position with one BOT. */
  lemma OpensAtFirst(s: State, events: seq<Event>)
    requires Inv(s) && !s.invested && |events| == 1
    requires Handles(s.ticker, events[0])
    requires SignalOf(events[0].bar) != [] && SignalOf(events[0].bar)[0].buy == 1
    ensures Run(s, events).Ok?
    ensures Run(s, events).value.1 == [Intent(s.ticker, Bot, s.baseQuantity)]
    ensures Run(s, events).value.0.invested
    ensures Run(s, events).value.0.entryTime == Some(SignalOf(events[0].bar)[0].date)
  {
    assert events[1..] == [];
  }

  /** A first event that emits nothing leaves the run to the remaining events. */
  lemma RunSilentStep(s: State, events: seq<Event>)
    requires Inv(s) && events != []
    requires Step(s, events[0]).Ok? && Step(s, events[0]).value.1 == []
    ensures Run(s, events) == Run(Step(s, events[0]).value.0, events[1..])
  {
    var s1 := Step(s, events[0]).value.0;
    match Run(s1, events[1..])
    case Err(_) =>
    case Ok((s2, out2)) =>
      assert [] + out2 == out2;
  }
}
