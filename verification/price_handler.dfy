/**
 * The daily CSV bar price handler: ticker subscription with its price
 * cache, construction of the merged bar stream and of the signal table,
 * signal attachment per bar, and the pull of the next bar event.
 *
 * CSV parsing and `PriceParser.parse` are external: a readable CSV file is
 * given as a sequence of already parsed rows, and a ticker with no
 * readable file is absent from the `CsvFiles` map.
 */
module PriceHandler {
  import opened Common
  import opened BarStream
  import opened Technical

  /** One parsed line of a ticker's CSV file. */
  datatype CsvRow = CsvRow(
    date: Date,
    open: int,
    high: int,
    low: int,
    close: int,
    volume: int,
    adjClose: int)

  /** The CSV files that can be opened; a ticker absent here raises `OSError`. */
  type CsvFiles = map<Ticker, seq<CsvRow>>

  /** The handler's latest known prices of one ticker. */
  datatype CacheEntry = CacheEntry(close: int, adjClose: int, timestamp: Date)

  /** One ticker's table, rows tagged with the ticker (`tickers_data`). */
  datatype TickerData = TickerData(ticker: Ticker, bars: seq<Bar>)

  /** The price cache together with the loaded tables, in subscription order. */
  datatype Subscriptions = Subscriptions(tickers: map<Ticker, CacheEntry>, data: seq<TickerData>)

  /** The exceptions that abort the handler. */
  datatype Error =
    | EmptyPriceFile(ticker: Ticker)   // `iloc[0]` of an empty table
    | NothingToConcatenate             // `pd.concat` of no tables
    | NoSignalColumns                  // `signals['buy']` of an empty signal table
    | IterRowsOnIterator               // `.iterrows()` called on a row iterator

  /** Seconds in a day: the period of every bar event. */
  const SecondsPerDay: int := 86400

  const NoSubscriptions: Subscriptions := Subscriptions(map[], [])

  function EntryOf(b: Bar): CacheEntry
  {
    CacheEntry(b.close, b.adjClose, b.time)
  }

  /** The cache entry a newly subscribed ticker takes from its file's first row. */
  function FirstEntry(rows: seq<CsvRow>): CacheEntry
    requires rows != []
  {
    CacheEntry(rows[0].close, rows[0].adjClose, rows[0].date)
  }

  /** A bar without its ticker column: the CSV line it was read from. */
  function Untag(b: Bar): CsvRow
  {
    CsvRow(b.time, b.open, b.high, b.low, b.close, b.volume, b.adjClose)
  }

  /**
   * The file's rows as bars of `ticker` (the added `Ticker` column): every
   * bar carries the ticker, and dropping it gives back the file's line.
   */
  function TagRows(ticker: Ticker, rows: seq<CsvRow>): (r: seq<Bar>)
    ensures |r| == |rows|
    ensures forall i :: 0 <= i < |r| ==> r[i].ticker == ticker && Untag(r[i]) == rows[i]
  {
    seq(|rows|, i requires 0 <= i < |rows| =>
      var row := rows[i];
      Bar(ticker, row.date, row.open, row.high, row.low, row.close, row.volume, row.adjClose))
  }

  /**
   * Every table belongs to a cached ticker, its bars carry that ticker,
   * and no ticker has two tables.
   */
  predicate WellFormed(s: Subscriptions)
  {
    && (forall k :: 0 <= k < |s.data| ==> s.data[k].ticker in s.tickers)
    && (forall k, b :: 0 <= k < |s.data| && b in s.data[k].bars ==> b.ticker == s.data[k].ticker)
    && (forall i, j :: 0 <= i < j < |s.data| ==> s.data[i].ticker != s.data[j].ticker)
  }

  /** Each table holds exactly its ticker's file, tagged with the ticker. */
  predicate Loaded(s: Subscriptions, files: CsvFiles)
  {
    forall k :: 0 <= k < |s.data| ==>
      s.data[k].ticker in files && s.data[k].bars == TagRows(s.data[k].ticker, files[s.data[k].ticker])
  }

  /** The tickers that have a table. */
  function TableTickers(data: seq<TickerData>): set<Ticker>
  {
    set k | 0 <= k < |data| :: data[k].ticker
  }

  lemma TableTickersAppend(data: seq<TickerData>, x: TickerData)
    ensures TableTickers(data + [x]) == TableTickers(data) + {x.ticker}
  {
    var d := data + [x];
    assert d[|data|] == x;
    forall t | t in TableTickers(data)
      ensures t in TableTickers(d)
    {
      var k :| 0 <= k < |data| && data[k].ticker == t;
      assert d[k] == data[k];
    }
  }

  /**
   * The cache and the tables cover the same tickers, and every cached
   * ticker has a non-empty file whose first row is its cache entry.
   */
  predicate FromFiles(s: Subscriptions, files: CsvFiles)
  {
    && s.tickers.Keys == TableTickers(s.data)
    && forall t :: t in s.tickers ==> t in files && files[t] != [] && s.tickers[t] == FirstEntry(files[t])
  }

  /** Some listed ticker that is not cached yet has an empty file. */
  predicate EmptyFileListed(s: Subscriptions, tickers: seq<Ticker>, files: CsvFiles)
  {
    exists t :: t in tickers && t !in s.tickers && t in files && files[t] == []
  }

  /** No file lists the same day twice (the CSV's date index is unique). */
  predicate UniqueDates(files: CsvFiles)
  {
    forall t, j, k :: t in files && 0 <= j < k < |files[t]| ==> files[t][j].date != files[t][k].date
  }

  /**
   * `subscribe_ticker`: a no-op when the ticker is already subscribed or has
   * no readable file; an empty file raises; otherwise the ticker's cache
   * entry is taken from the file's first row, no other entry changes, and
   * its bars are added as the last table.
   */
  function Subscribe(s: Subscriptions, ticker: Ticker, files: CsvFiles): (r: Result<Subscriptions, Error>)
    ensures ticker in s.tickers ==> r == Ok(s)
    ensures ticker !in s.tickers && ticker !in files ==> r == Ok(s)
    ensures ticker !in s.tickers && ticker in files && files[ticker] == [] ==> r == Err(EmptyPriceFile(ticker))
    ensures ticker !in s.tickers && ticker in files && files[ticker] != [] ==>
      && r.Ok?
      && r.value.tickers.Keys == s.tickers.Keys + {ticker}
      && r.value.tickers[ticker] == FirstEntry(files[ticker])
      && (forall t :: t in s.tickers ==> r.value.tickers[t] == s.tickers[t])
      && r.value.data == s.data + [TickerData(ticker, TagRows(ticker, files[ticker]))]
    ensures r.Ok? && WellFormed(s) ==> WellFormed(r.value)
    ensures r.Ok? && Loaded(s, files) ==> Loaded(r.value, files)
    ensures r.Ok? && FromFiles(s, files) ==> FromFiles(r.value, files)
  {
    if ticker in s.tickers then Ok(s)
    else if ticker !in files then Ok(s)
    else
      var rows := files[ticker];
      if rows == [] then Err(EmptyPriceFile(ticker))
      else
        var row0 := rows[0];
        var entry := CacheEntry(row0.close, row0.adjClose, row0.date);
        var table := TickerData(ticker, TagRows(ticker, rows));
        TableTickersAppend(s.data, table);
        Ok(Subscriptions(s.tickers[ticker := entry], s.data + [table]))
  }

  /**
   * The constructor's subscription loop over `init_tickers`: the first
   * exception aborts it, and one is raised exactly when some listed ticker
   * not yet cached has an empty file; otherwise the cache gains exactly the
   * listed tickers with a readable file and keeps its old entries.
   */
  function SubscribeAll(s: Subscriptions, tickers: seq<Ticker>, files: CsvFiles): (r: Result<Subscriptions, Error>)
    ensures r.Err? <==> EmptyFileListed(s, tickers, files)
    ensures r.Err? ==> r.error.EmptyPriceFile?
    ensures r.Ok? && WellFormed(s) ==> WellFormed(r.value)
    ensures r.Ok? && Loaded(s, files) ==> Loaded(r.value, files)
    ensures r.Ok? && FromFiles(s, files) ==> FromFiles(r.value, files)
    ensures r.Ok? ==> r.value.tickers.Keys == s.tickers.Keys + (set t | t in tickers && t in files)
    ensures r.Ok? ==> forall t :: t in s.tickers ==> r.value.tickers[t] == s.tickers[t]
    decreases |tickers|
  {
    if tickers == [] then Ok(s)
    else
      match Subscribe(s, tickers[0], files)
      case Err(e) =>
        assert tickers[0] in tickers;
        Err(e)
      case Ok(s1) =>
        SubscribeAllStep(s, tickers, files);
        SubscribeAll(s1, tickers[1..], files)
  }

  /** What one successful subscription leaves for the rest of the loop. */
  lemma SubscribeAllStep(s: Subscriptions, tickers: seq<Ticker>, files: CsvFiles)
    requires tickers != [] && Subscribe(s, tickers[0], files).Ok?
    ensures var s1 := Subscribe(s, tickers[0], files).value;
      && (EmptyFileListed(s1, tickers[1..], files) <==> EmptyFileListed(s, tickers, files))
      && s1.tickers.Keys + (set t | t in tickers[1..] && t in files) == s.tickers.Keys + (set t | t in tickers && t in files)
  {
    var s1 := Subscribe(s, tickers[0], files).value;
    assert tickers == [tickers[0]] + tickers[1..];
    if EmptyFileListed(s, tickers, files) {
      var t :| t in tickers && t !in s.tickers && t in files && files[t] == [];
      assert t != tickers[0];
      assert t in tickers[1..] && t !in s1.tickers;
    }
    if EmptyFileListed(s1, tickers[1..], files) {
      var t :| t in tickers[1..] && t !in s1.tickers && t in files && files[t] == [];
      assert t in tickers;
    }
  }

  /** The loaded tables, in subscription order. */
  function Tables(data: seq<TickerData>): (r: seq<seq<Bar>>)
    ensures |r| == |data|
    ensures forall k :: 0 <= k < |data| ==> r[k] == data[k].bars
  {
    seq(|data|, k requires 0 <= k < |data| => data[k].bars)
  }

  /** `pd.concat(self.tickers_data.values())`. */
  function AllBars(s: Subscriptions): seq<Bar>
  {
    Concat(Tables(s.data))
  }

  lemma BarsAreSubscribed(s: Subscriptions)
    requires WellFormed(s)
    ensures forall b :: b in AllBars(s) ==> b.ticker in s.tickers
  {
    var tables := Tables(s.data);
    ConcatMembers(tables);
    forall b | b in AllBars(s)
      ensures b.ticker in s.tickers
    {
      var k :| 0 <= k < |tables| && b in tables[k];
      assert b in s.data[k].bars;
    }
  }

  /** A file without repeated days tags to bars with distinct keys. */
  lemma TaggedRowsHaveDistinctKeys(ticker: Ticker, rows: seq<CsvRow>)
    requires forall j, k :: 0 <= j < k < |rows| ==> rows[j].date != rows[k].date
    ensures DistinctKeys(TagRows(ticker, rows))
  {
    var bars := TagRows(ticker, rows);
    forall j, k | 0 <= j < k < |bars|
      ensures Key(bars[j]) != Key(bars[k])
    {
      assert bars[j].time == rows[j].date && bars[k].time == rows[k].date;
    }
  }

  /** Every bar of every table carries that table's ticker. */
  lemma TickersOfTables(data: seq<TickerData>, t: Ticker, y: Bar)
    requires forall k :: 0 <= k < |data| ==> forall b :: b in data[k].bars ==> b.ticker == data[k].ticker
    requires forall k :: 0 <= k < |data| ==> data[k].ticker != t
    requires y in Concat(Tables(data))
    ensures y.ticker != t
  {
    ConcatMembers(Tables(data));
    var m :| 0 <= m < |Tables(data)| && y in Tables(data)[m];
    assert y in data[m].bars;
  }

  /**
   * Tables of distinct tickers, each loaded from a file without repeated
   * days, concatenate to bars with pairwise distinct (day, ticker) keys.
   */
  lemma {:induction false} TablesHaveDistinctKeys(data: seq<TickerData>, files: CsvFiles)
    requires forall k :: 0 <= k < |data| ==>
      data[k].ticker in files && data[k].bars == TagRows(data[k].ticker, files[data[k].ticker])
    requires forall i, j :: 0 <= i < j < |data| ==> data[i].ticker != data[j].ticker
    requires UniqueDates(files)
    ensures DistinctKeys(Concat(Tables(data)))
    decreases |data|
  {
    if data != [] {
      var t := data[0].ticker;
      var head := data[0].bars;
      var tail := data[1..];
      assert Tables(data)[1..] == Tables(tail);
      assert Concat(Tables(data)) == head + Concat(Tables(tail));
      assert forall k :: 0 <= k < |tail| ==> tail[k] == data[k + 1];
      TablesHaveDistinctKeys(tail, files);
      TaggedRowsHaveDistinctKeys(t, files[t]);
      assert forall k :: 0 <= k < |tail| ==> forall b :: b in tail[k].bars ==> b.ticker == tail[k].ticker by {
        forall k, b | 0 <= k < |tail| && b in tail[k].bars
          ensures b.ticker == tail[k].ticker
        {
          var rows := files[tail[k].ticker];
          var n :| 0 <= n < |rows| && TagRows(tail[k].ticker, rows)[n] == b;
        }
      }
      forall x, y | x in head && y in Concat(Tables(tail))
        ensures Key(x) != Key(y)
      {
        var i :| 0 <= i < |head| && head[i] == x;
        TickersOfTables(tail, t, y);
      }
      DistinctKeysAppend(head, Concat(Tables(tail)));
    }
  }

  // ---------------------------------------------------------------------
  // The signal table and its lookup
  // ---------------------------------------------------------------------

  /** A row of the signal table after missing buy, sell and sma are filled with 0. */
  datatype SignalRow = SignalRow(
    date: Date,
    symbol: Ticker,
    close: real,
    sma: real,
    lower: Option<real>,
    middle: Option<real>,
    upper: Option<real>,
    adx: Option<real>,
    trailingStop: real,
    buy: int,
    sell: int)

  /**
   * The `fillna(0)` of `_set_signals_from_price`: missing buy, sell and sma
   * become 0, present values and every other column are kept.
   */
  function FillSignals(rows: seq<AnalysedRow>): (r: seq<SignalRow>)
    ensures |r| == |rows|
    ensures forall i :: 0 <= i < |r| ==>
      && r[i].date == rows[i].price.date
      && r[i].symbol == rows[i].price.symbol
      && r[i].close == rows[i].price.close
      && r[i].trailingStop == rows[i].trailingStop
      && r[i].lower == rows[i].ind.lower
      && r[i].middle == rows[i].ind.middle
      && r[i].upper == rows[i].ind.upper
      && r[i].adx == rows[i].ind.adx
    ensures forall i :: 0 <= i < |r| ==>
      && (rows[i].buy.None? ==> r[i].buy == 0)
      && (rows[i].buy.Some? ==> r[i].buy == rows[i].buy.value)
      && (rows[i].sell.None? ==> r[i].sell == 0)
      && (rows[i].sell.Some? ==> r[i].sell == rows[i].sell.value)
      && (rows[i].ind.sma.None? ==> r[i].sma == 0.0)
      && (rows[i].ind.sma.Some? ==> r[i].sma == rows[i].ind.sma.value)
  {
    seq(|rows|, i requires 0 <= i < |rows| =>
      var a := rows[i];
      SignalRow(
        a.price.date, a.price.symbol, a.price.close,
        match a.ind.sma case Some(v) => v case None => 0.0,
        a.ind.lower, a.ind.middle, a.ind.upper, a.ind.adx, a.trailingStop,
        match a.buy case Some(v) => v case None => 0,
        match a.sell case Some(v) => v case None => 0))
  }

  /** A signal row keyed by the given day and ticker. */
  predicate KeyedAs(x: SignalRow, date: Date, ticker: Ticker)
  {
    x.date == date && x.symbol == ticker
  }

  /** Row `k` is the first row of the table keyed by the given day and ticker. */
  predicate FirstKeyed(signals: seq<SignalRow>, k: int, date: Date, ticker: Ticker)
  {
    && 0 <= k < |signals| && KeyedAs(signals[k], date, ticker)
    && forall j :: 0 <= j < k ==> !KeyedAs(signals[j], date, ticker)
  }

  /**
   * The signal lookup of `_create_event`: the rows whose date and symbol
   * match, each as often as the table holds it, in table order.
   */
  function Lookup(signals: seq<SignalRow>, date: Date, ticker: Ticker): (r: seq<SignalRow>)
    ensures |r| <= |signals|
    ensures forall x :: x in r ==> x in signals && KeyedAs(x, date, ticker)
    ensures forall k :: 0 <= k < |signals| && KeyedAs(signals[k], date, ticker) ==> signals[k] in r
  {
    if signals == [] then []
    else
      var rest := Lookup(signals[1..], date, ticker);
      assert forall k :: 1 <= k < |signals| ==> signals[k] == signals[1..][k - 1];
      if KeyedAs(signals[0], date, ticker) then [signals[0]] + rest else rest
  }

  /**
   * The lookup keeps every matching row as often as the table holds it,
   * and no other row.
   */
  lemma {:induction false} LookupCounts(signals: seq<SignalRow>, date: Date, ticker: Ticker)
    ensures forall x :: multiset(Lookup(signals, date, ticker))[x] == if KeyedAs(x, date, ticker) then multiset(signals)[x] else 0
    decreases |signals|
  {
    if signals != [] {
      MultisetTail(signals);
      LookupCounts(signals[1..], date, ticker);
    }
  }

  /**
   * The lookup keeps table order: its first row is the table's first row
   * with the key, the row the strategy reads.
   */
  lemma {:induction false} LookupFirst(signals: seq<SignalRow>, date: Date, ticker: Ticker, k: nat)
    requires FirstKeyed(signals, k, date, ticker)
    ensures Lookup(signals, date, ticker) != [] && Lookup(signals, date, ticker)[0] == signals[k]
    decreases k
  {
    if k > 0 {
      assert FirstKeyed(signals[1..], k - 1, date, ticker) by {
        forall j | 0 <= j < k - 1
          ensures !KeyedAs(signals[1..][j], date, ticker)
        {
          assert signals[1..][j] == signals[j + 1];
        }
      }
      LookupFirst(signals[1..], date, ticker, k - 1);
    }
  }

  /**
   * When exactly one row of the table has the bar's key, the lookup
   * attaches exactly that row.
   */
  lemma {:induction false} LookupSingle(signals: seq<SignalRow>, date: Date, ticker: Ticker, i: nat)
    requires i < |signals|
    requires forall k :: 0 <= k < |signals| ==> (signals[k].date == date && signals[k].symbol == ticker <==> k == i)
    ensures Lookup(signals, date, ticker) == [signals[i]]
    decreases |signals|
  {
    if i == 0 {
      LookupNone(signals[1..], date, ticker);
    } else {
      LookupSingle(signals[1..], date, ticker, i - 1);
    }
  }

  lemma {:induction false} LookupNone(signals: seq<SignalRow>, date: Date, ticker: Ticker)
    requires forall k :: 0 <= k < |signals| ==> !(signals[k].date == date && signals[k].symbol == ticker)
    ensures Lookup(signals, date, ticker) == []
    decreases |signals|
  {
    if signals != [] {
      LookupNone(signals[1..], date, ticker);
    }
  }

  // ---------------------------------------------------------------------
  // Bar events and the price cache
  // ---------------------------------------------------------------------

  /** A bar event with its attached signal rows. */
  datatype BarEvent = BarEvent(
    ticker: Ticker,
    time: Date,
    period: int,
    open: int,
    high: int,
    low: int,
    close: int,
    volume: int,
    adjClose: int,
    signal: seq<SignalRow>)

  /**
   * `_create_event`: the bar's prices, a one-day period, and the lookup of
   * the signal rows keyed by the bar's day and ticker, the table's first
   * such row first.
   */
  function CreateEvent(bar: Bar, signals: seq<SignalRow>): (r: BarEvent)
    ensures r.ticker == bar.ticker && r.time == bar.time && r.period == SecondsPerDay
    ensures r.open == bar.open && r.high == bar.high && r.low == bar.low
    ensures r.close == bar.close && r.adjClose == bar.adjClose && r.volume == bar.volume
    ensures r.signal == Lookup(signals, bar.time, bar.ticker)
    ensures forall x :: x in r.signal ==> KeyedAs(x, bar.time, bar.ticker)
    ensures forall k :: 0 <= k < |signals| && KeyedAs(signals[k], bar.time, bar.ticker) ==> signals[k] in r.signal
    ensures forall k :: FirstKeyed(signals, k, bar.time, bar.ticker) ==> r.signal != [] && r.signal[0] == signals[k]
  {
    assert forall k :: FirstKeyed(signals, k, bar.time, bar.ticker) ==> Lookup(signals, bar.time, bar.ticker) != [] && Lookup(signals, bar.time, bar.ticker)[0] == signals[k] by {
      forall k | FirstKeyed(signals, k, bar.time, bar.ticker)
        ensures Lookup(signals, bar.time, bar.ticker) != [] && Lookup(signals, bar.time, bar.ticker)[0] == signals[k]
      {
        LookupFirst(signals, bar.time, bar.ticker, k);
      }
    }
    BarEvent(bar.ticker, bar.time, SecondsPerDay, bar.open, bar.high, bar.low,
             bar.close, bar.volume, bar.adjClose, Lookup(signals, bar.time, bar.ticker))
  }

  /**
   * `_store_event`: the event's ticker now holds the event's close,
   * adjusted close and time; every other ticker's entry is unchanged.
   */
  function StoreEvent(tickers: map<Ticker, CacheEntry>, ev: BarEvent): (r: map<Ticker, CacheEntry>)
    requires ev.ticker in tickers
    ensures r.Keys == tickers.Keys
    ensures r[ev.ticker] == CacheEntry(ev.close, ev.adjClose, ev.time)
    ensures forall t :: t in tickers && t != ev.ticker ==> r[t] == tickers[t]
  {
    tickers[ev.ticker := CacheEntry(ev.close, ev.adjClose, ev.time)]
  }

  // ---------------------------------------------------------------------
  // The handler
  // ---------------------------------------------------------------------

  /** The handler after construction: the bars still to stream and the signal table. */
  datatype Handler = Handler(
    subs: Subscriptions,
    start: Option<Date>,
    end: Option<Date>,
    stream: seq<Bar>,
    signals: seq<SignalRow>,
    continueBacktest: bool)

  /** Every bar still to be streamed belongs to a cached ticker. */
  predicate Valid(h: Handler)
  {
    forall i :: 0 <= i < |h.stream| ==> h.stream[i].ticker in h.subs.tickers
  }

  /**
   * `stream_next`: on an exhausted stream, stop the backtest and enqueue
   * nothing; otherwise take the next bar, update its ticker's cache entry
   * and enqueue exactly one event for it.
   */
  function StreamNext(h: Handler): (r: (Handler, seq<BarEvent>))
    requires Valid(h)
    ensures Valid(r.0)
    ensures h.stream == [] ==> r.0 == h.(continueBacktest := false) && r.1 == []
    ensures h.stream != [] ==>
      && |r.1| == 1
      && r.1[0] == CreateEvent(h.stream[0], h.signals)
      && r.0 == h.(subs := r.0.subs, stream := h.stream[1..])
      && r.0.subs.data == h.subs.data
      && r.0.subs.tickers.Keys == h.subs.tickers.Keys
      && r.0.subs.tickers[h.stream[0].ticker] == EntryOf(h.stream[0])
      && (forall t :: t in h.subs.tickers && t != h.stream[0].ticker ==> r.0.subs.tickers[t] == h.subs.tickers[t])
  {
    if h.stream == [] then (h.(continueBacktest := false), [])
    else
      var bar := h.stream[0];
      var ev := CreateEvent(bar, h.signals);
      var tickers := StoreEvent(h.subs.tickers, ev);
      (h.(subs := h.subs.(tickers := tickers), stream := h.stream[1..]), [ev])
  }

  /** Bar `k` is the last bar of `t` in the stream. */
  predicate LastBarOf(stream: seq<Bar>, k: int, t: Ticker)
  {
    && 0 <= k < |stream| && stream[k].ticker == t
    && forall j :: k < j < |stream| ==> stream[j].ticker != t
  }

  /** The last bar of `t` in `stream`, if any. */
  function LastOf(stream: seq<Bar>, t: Ticker): (r: Option<Bar>)
    ensures r.Some? ==> r.value in stream && r.value.ticker == t
    ensures r.None? <==> forall i :: 0 <= i < |stream| ==> stream[i].ticker != t
    ensures forall k :: LastBarOf(stream, k, t) ==> r == Some(stream[k])
  {
    if stream == [] then None
    else
      match LastOf(stream[1..], t)
      case Some(b) => Some(b)
      case None =>
        assert forall i :: 1 <= i < |stream| ==> stream[i] == stream[1..][i - 1];
        if stream[0].ticker == t then Some(stream[0]) else None
  }

  /**
   * The cache entry of `t` once every remaining bar has been streamed: its
   * last remaining bar's prices, or its current entry if it has none.
   */
  function FinalEntry(h: Handler, t: Ticker): CacheEntry
    requires t in h.subs.tickers
  {
    match LastOf(h.stream, t)
    case Some(b) => EntryOf(b)
    case None => h.subs.tickers[t]
  }

  /** Streaming one bar does not change what the cache ends up holding. */
  lemma FinalEntryStep(h: Handler, t: Ticker)
    requires Valid(h) && h.stream != [] && t in h.subs.tickers
    ensures t in StreamNext(h).0.subs.tickers
    ensures FinalEntry(StreamNext(h).0, t) == FinalEntry(h, t)
  {
  }

  /**
   * The driving loop's view of the handler: `stream_next` until the stream
   * is exhausted. One event per remaining bar, in stream order, and the
   * backtest stopped at the end.
   */
  function Replay(h: Handler): (r: (Handler, seq<BarEvent>))
    requires Valid(h)
    ensures |r.1| == |h.stream|
    ensures forall i :: 0 <= i < |r.1| ==> r.1[i] == CreateEvent(h.stream[i], h.signals)
    ensures r.0.stream == [] && !r.0.continueBacktest
    decreases |h.stream|
  {
    if h.stream == [] then StreamNext(h)
    else
      var (h1, out1) := StreamNext(h);
      var (h2, out2) := Replay(h1);
      assert forall i :: 1 <= i < |h.stream| ==> h.stream[i] == h1.stream[i - 1];
      (h2, out1 + out2)
  }

  /**
   * After the replay every ticker is still cached, and each holds the
   * prices of its last streamed bar, or its old entry if none was streamed.
   */
  lemma {:induction false} ReplayCache(h: Handler)
    requires Valid(h)
    ensures Replay(h).0.subs.tickers.Keys == h.subs.tickers.Keys
    ensures forall t :: t in h.subs.tickers ==> Replay(h).0.subs.tickers[t] == FinalEntry(h, t)
    decreases |h.stream|
  {
    if h.stream != [] {
      var h1 := StreamNext(h).0;
      ReplayCache(h1);
      forall t | t in h.subs.tickers
        ensures Replay(h).0.subs.tickers[t] == FinalEntry(h, t)
      {
        FinalEntryStep(h, t);
      }
    }
  }

  /**
   * The price table handed to the strategy, one row per streamed bar, with
   * the bar's day, ticker and prices.
   */
  function PriceTable(stream: seq<Bar>): (r: seq<PriceRow>)
    ensures |r| == |stream|
    ensures forall i :: 0 <= i < |r| ==> r[i].date == stream[i].time && r[i].symbol == stream[i].ticker
    ensures forall i :: 0 <= i < |r| ==>
      && r[i].open == stream[i].open as real && r[i].high == stream[i].high as real
      && r[i].low == stream[i].low as real && r[i].close == stream[i].close as real
      && r[i].volume == stream[i].volume as real
  {
    seq(|stream|, i requires 0 <= i < |stream| =>
      var b := stream[i];
      PriceRow(b.time, b.ticker, b.open as real, b.high as real, b.low as real, b.close as real, b.volume as real))
  }

  /**
   * Signal row `i` as the strategy reads it: bar i's day, ticker and close,
   * a trailing stop of nine tenths of that close, the engine's bands and
   * ADX, a missing sma as 0, and buy (sell) = 1 exactly when i >= 2 and the
   * buy (sell) rule holds between bars i and i - 2, 0 otherwise.
   */
  predicate SignalRowFor(x: SignalRow, rows: seq<Bar>, ind: seq<Indicators>, i: int)
    requires 0 <= i < |rows| == |ind|
  {
    && x.date == rows[i].time && x.symbol == rows[i].ticker
    && x.close == rows[i].close as real
    && x.trailingStop * 10.0 == x.close * 9.0
    && x.sma == (if ind[i].sma.Some? then ind[i].sma.value else 0.0)
    && x.lower == ind[i].lower && x.middle == ind[i].middle && x.upper == ind[i].upper && x.adx == ind[i].adx
    && x.buy == (if i >= 2 && BuyRule(rows[i].close as real, ind[i], rows[i - 2].close as real, ind[i - 2]) then 1 else 0)
    && x.sell == (if i >= 2 && SellRule(rows[i].close as real, ind[i], rows[i - 2].close as real, ind[i - 2]) then 1 else 0)
  }

  /**
   * The filled analysis of the rows' price table, row by row: each row is
   * computed from its bar, the bar two positions earlier and the engine's
   * indicators.
   */
  lemma SignalTableRows(rows: seq<Bar>, engine: Engine)
    requires GetHistoricalSignals(PriceTable(rows), engine) != []
    ensures engine(PriceTable(rows)).Some? && |engine(PriceTable(rows)).value| == |rows|
    ensures var signals := FillSignals(GetHistoricalSignals(PriceTable(rows), engine));
      && |signals| == |rows|
      && forall i :: 0 <= i < |rows| ==> SignalRowFor(signals[i], rows, engine(PriceTable(rows)).value, i)
  {
    var prices := PriceTable(rows);
    var ind := engine(prices).value;
    var analysed := GetHistoricalSignals(prices, engine);
    var signals := FillSignals(analysed);
    forall i | 0 <= i < |rows|
      ensures SignalRowFor(signals[i], rows, ind, i)
    {
      assert AnalysedAs(analysed[i], prices, ind, i);
      if i >= 2 {
        assert prices[i - 2].close == rows[i - 2].close as real;
      }
    }
  }

  /**
   * `_set_signals_from_price` on the merged rows: the signal table is the
   * strategy's analysis of the rows' price table with missing flags filled,
   * so row i is computed from bar i; an empty analysis has no `buy` column
   * and raises.
   */
  function SetSignals(subs: Subscriptions, start: Option<Date>, end: Option<Date>, rows: seq<Bar>, engine: Engine): (r: Result<Handler, Error>)
    ensures r.Err? <==> GetHistoricalSignals(PriceTable(rows), engine) == []
    ensures r.Err? ==> r.error == NoSignalColumns
    ensures r.Ok? ==>
      && r.value.subs == subs && r.value.stream == rows && r.value.continueBacktest
      && r.value.start == start && r.value.end == end
      && r.value.signals == FillSignals(GetHistoricalSignals(PriceTable(rows), engine))
      && |r.value.signals| == |rows|
      && (forall i :: 0 <= i < |rows| ==>
           r.value.signals[i].date == rows[i].time && r.value.signals[i].symbol == rows[i].ticker)
      && (forall i :: 0 <= i < |rows| ==>
           r.value.signals[i] in Lookup(r.value.signals, rows[i].time, rows[i].ticker))
  {
    var analysed := GetHistoricalSignals(PriceTable(rows), engine);
    if analysed == [] then Err(NoSignalColumns)
    else Ok(Handler(subs, start, end, rows, FillSignals(analysed), true))
  }

  /**
   * The constructor after its subscription loop: merge and window the
   * loaded bars and build the signal table. Every streamed bar belongs to a
   * cached ticker, and signal row i has bar i's day and ticker.
   */
  function Build(subs: Subscriptions, start: Option<Date>, end: Option<Date>, engine: Engine): (r: Result<Handler, Error>)
    requires WellFormed(subs)
    ensures r.Ok? ==>
      && r.value.subs == subs
      && Valid(r.value)
      && r.value.continueBacktest
      && r.value.start == start && r.value.end == end
      && r.value.stream == Merge(AllBars(subs), start, end)
      && r.value.signals == FillSignals(GetHistoricalSignals(PriceTable(r.value.stream), engine))
      && |r.value.signals| == |r.value.stream|
      && (forall i :: 0 <= i < |r.value.stream| ==>
           r.value.signals[i].date == r.value.stream[i].time && r.value.signals[i].symbol == r.value.stream[i].ticker)
  {
    var rows := Merge(AllBars(subs), start, end);
    BarsAreSubscribed(subs);
    MergedBarsAreInput(AllBars(subs), start, end);
    SetSignals(subs, start, end, rows, engine)
  }

  /**
   * The subscriptions the constructor's loop produces from an empty
   * handler: exactly the listed tickers with a readable file are cached,
   * each from its file's first row, each with its file as its one table.
   */
  lemma InitialSubscriptions(init: seq<Ticker>, files: CsvFiles)
    requires SubscribeAll(NoSubscriptions, init, files).Ok?
    ensures var s := SubscribeAll(NoSubscriptions, init, files).value;
      && WellFormed(s) && Loaded(s, files) && FromFiles(s, files)
      && s.tickers.Keys == (set t | t in init && t in files)
      && (s.data == [] <==> forall t :: t in init ==> t !in files)
  {
    var s := SubscribeAll(NoSubscriptions, init, files).value;
    assert FromFiles(NoSubscriptions, files);
    if s.data != [] {
      assert s.data[0].ticker in TableTickers(s.data);
    }
  }

  /**
   * The handler's constructor with the intended merge: subscribe the
   * initial tickers, merge and window their bars, build the signal table.
   * It raises for an empty file among the listed tickers, when no listed
   * ticker has a file, and when the analysis is empty. A constructed
   * handler caches exactly the listed tickers with a file, each loaded
   * from that file; it streams exactly the merged window of their bars,
   * and its signal table is the filled analysis of that window.
   */
  function Construct(init: seq<Ticker>, files: CsvFiles, start: Option<Date>, end: Option<Date>, engine: Engine): (r: Result<Handler, Error>)
    ensures (r.Err? && r.error.EmptyPriceFile?) <==> EmptyFileListed(NoSubscriptions, init, files)
    ensures r == Err(NothingToConcatenate) <==>
      !EmptyFileListed(NoSubscriptions, init, files) && forall t :: t in init ==> t !in files
    ensures r == Err(NoSignalColumns) <==>
      var s := SubscribeAll(NoSubscriptions, init, files);
      s.Ok? && s.value.data != [] && GetHistoricalSignals(PriceTable(Merge(AllBars(s.value), start, end)), engine) == []
    ensures r.Err? ==> r.error != IterRowsOnIterator
    ensures r.Ok? ==>
      && WellFormed(r.value.subs)
      && Loaded(r.value.subs, files)
      && FromFiles(r.value.subs, files)
      && r.value.subs.tickers.Keys == (set t | t in init && t in files)
      && Valid(r.value)
      && r.value.continueBacktest
      && r.value.start == start && r.value.end == end
      && r.value.stream == Merge(AllBars(r.value.subs), start, end)
      && r.value.signals == FillSignals(GetHistoricalSignals(PriceTable(r.value.stream), engine))
      && |r.value.signals| == |r.value.stream|
      && (forall i :: 0 <= i < |r.value.stream| ==>
           r.value.signals[i].date == r.value.stream[i].time && r.value.signals[i].symbol == r.value.stream[i].ticker)
  {
    match SubscribeAll(NoSubscriptions, init, files)
    case Err(e) => Err(e)
    case Ok(subs) =>
      InitialSubscriptions(init, files);
      if subs.data == [] then Err(NothingToConcatenate)
      else Build(subs, start, end, engine)
  }

  lemma MergedBarsAreInput(bars: seq<Bar>, start: Option<Date>, end: Option<Date>)
    ensures forall i :: 0 <= i < |Merge(bars, start, end)| ==> Merge(bars, start, end)[i] in bars
  {
    var r := Merge(bars, start, end);
    forall i | 0 <= i < |r|
      ensures r[i] in bars
    {
      assert multiset(r)[r[i]] > 0;
    }
  }

  /**
   * `subscribe_ticker` on a running handler: a no-op for a subscribed
   * ticker or one without a file, a raise for an empty file; otherwise the
   * ticker is cached from its file's first row and its table appended.
   * Only the cache and the tables change, and the handler stays valid.
   */
  function SubscribeTicker(h: Handler, ticker: Ticker, files: CsvFiles): (r: Result<Handler, Error>)
    requires Valid(h)
    ensures ticker in h.subs.tickers || ticker !in files ==> r == Ok(h)
    ensures r.Err? <==> ticker !in h.subs.tickers && ticker in files && files[ticker] == []
    ensures r.Err? ==> r.error == EmptyPriceFile(ticker)
    ensures r.Ok? ==> Valid(r.value) && r.value == h.(subs := r.value.subs)
    ensures r.Ok? ==> forall t :: t in h.subs.tickers ==> t in r.value.subs.tickers && r.value.subs.tickers[t] == h.subs.tickers[t]
    ensures r.Ok? && ticker !in h.subs.tickers && ticker in files ==>
      && r.value.subs.tickers.Keys == h.subs.tickers.Keys + {ticker}
      && r.value.subs.tickers[ticker] == FirstEntry(files[ticker])
      && r.value.subs.data == h.subs.data + [TickerData(ticker, TagRows(ticker, files[ticker]))]
  {
    match Subscribe(h.subs, ticker, files)
    case Err(e) => Err(e)
    case Ok(subs) => Ok(h.(subs := subs))
  }

  // ---------------------------------------------------------------------
  // The merge as written: three of four branches hand back a row iterator
  // ---------------------------------------------------------------------

  /** What `_merge_sort_ticker_data` returns: a frame, or `frame.iterrows()`. */
  datatype BarSource = Frame(rows: seq<Bar>) | RowIterator(rows: seq<Bar>)

  /**
   * `_merge_sort_ticker_data` as written: the same rows as the intended
   * merge, but only the branch with both bounds returns a frame.
   */
  function MergeSortTickerData(bars: seq<Bar>, start: Option<Date>, end: Option<Date>): (r: BarSource)
    ensures r.rows == Merge(bars, start, end)
    ensures r.Frame? <==> start.Some? && end.Some?
  {
    var df := SortBars(bars);
    var lo := if start.Some? then LeftIndex(df, start.value) else 0;
    var hi := if end.Some? then LeftIndex(df, end.value) else |df|;
    if start.None? && end.None? then RowIterator(df)
    else if start.Some? && end.None? then RowIterator(df[lo..])
    else if start.None? && end.Some? then RowIterator(df[..hi])
    else Frame(if lo <= hi then df[lo..hi] else [])
  }

  /**
   * The constructor as written: `_set_signals_from_price` calls
   * `.iterrows()` on whatever the merge returned, which a row iterator
   * does not have.
   */
  function ConstructAsWritten(init: seq<Ticker>, files: CsvFiles, start: Option<Date>, end: Option<Date>, engine: Engine): (r: Result<Handler, Error>)
    ensures start.Some? && end.Some? ==> r == Construct(init, files, start, end, engine)
    ensures r.Ok? ==> start.Some? && end.Some?
  {
    match SubscribeAll(NoSubscriptions, init, files)
    case Err(e) => Err(e)
    case Ok(subs) =>
      if subs.data == [] then Err(NothingToConcatenate)
      else
        match MergeSortTickerData(AllBars(subs), start, end)
        case RowIterator(_) => Err(IterRowsOnIterator)
        case Frame(rows) => SetSignals(subs, start, end, rows, engine)
  }

  /** An engine that computes no indicator at all (every cell NaN). */
  function NaNEngine(prices: seq<PriceRow>): Option<seq<Indicators>>
  {
    Some(seq(|prices|, _ => Indicators(None, None, None, None, None)))
  }

  /**
   * The discrepancy on a concrete input: one ticker with one row and no
   * date bounds. The constructor as written raises; the intended one
   * streams that single bar.
   */
  lemma AsWrittenRejectsUnboundedRun()
    ensures var files := map["A" := [CsvRow(1, 10, 12, 9, 11, 100, 11)]];
      && ConstructAsWritten(["A"], files, None, None, NaNEngine) == Err(IterRowsOnIterator)
      && Construct(["A"], files, None, None, NaNEngine).Ok?
      && Construct(["A"], files, None, None, NaNEngine).value.stream == [Bar("A", 1, 10, 12, 9, 11, 100, 11)]
  {
    var files := map["A" := [CsvRow(1, 10, 12, 9, 11, 100, 11)]];
    var bar := Bar("A", 1, 10, 12, 9, 11, 100, 11);
    var s1 := Subscribe(NoSubscriptions, "A", files);
    assert TagRows("A", files["A"]) == [bar];
    assert s1.Ok? && s1.value.data == [TickerData("A", [bar])];
    assert SubscribeAll(NoSubscriptions, ["A"], files) == s1;
    var subs := s1.value;
    assert Tables(subs.data) == [[bar]];
    assert [[bar]][1..] == [];
    assert Concat([[bar]]) == [bar] + Concat([]);
    assert AllBars(subs) == [bar];
    assert SortBars([bar]) == [bar];
    var rows := Merge([bar], None, None);
    assert rows == [bar];
    assert PriceTable(rows) != [];
    assert NaNEngine(PriceTable(rows)).Some?;
  }

  /**
   * The corrected constructor succeeds whatever bounds are given, as long
   * as the subscriptions load, something was loaded, the window is not
   * empty and the indicator engine delivers a column per row.
   */
  lemma ConstructStreamsWindow(init: seq<Ticker>, files: CsvFiles, start: Option<Date>, end: Option<Date>, engine: Engine)
    requires SubscribeAll(NoSubscriptions, init, files).Ok?
    requires SubscribeAll(NoSubscriptions, init, files).value.data != []
    requires var bars := AllBars(SubscribeAll(NoSubscriptions, init, files).value);
      && Merge(bars, start, end) != []
      && engine(PriceTable(Merge(bars, start, end))).Some?
      && |engine(PriceTable(Merge(bars, start, end))).value| == |Merge(bars, start, end)|
    ensures Construct(init, files, start, end, engine).Ok?
    ensures start.None? || end.None? ==> ConstructAsWritten(init, files, start, end, engine) == Err(IterRowsOnIterator)
  {
  }

  /**
   * Signal attachment is exactly once: when no file repeats a day, every
   * bar event the constructed handler streams carries exactly one signal
   * row, the one computed from that bar.
   */
  lemma AttachmentExactlyOnce(init: seq<Ticker>, files: CsvFiles, start: Option<Date>, end: Option<Date>, engine: Engine)
    requires UniqueDates(files)
    requires Construct(init, files, start, end, engine).Ok?
    ensures var h := Construct(init, files, start, end, engine).value;
      && |Replay(h).1| == |h.stream|
      && forall i :: 0 <= i < |h.stream| ==> Replay(h).1[i].signal == [h.signals[i]]
  {
    var h := Construct(init, files, start, end, engine).value;
    assert Loaded(NoSubscriptions, files);
    assert h.subs == SubscribeAll(NoSubscriptions, init, files).value;
    TablesHaveDistinctKeys(h.subs.data, files);
    MergeKeepsDistinctKeys(AllBars(h.subs), start, end);
    forall i | 0 <= i < |h.stream|
      ensures Replay(h).1[i].signal == [h.signals[i]]
    {
      var bar := h.stream[i];
      forall k | 0 <= k < |h.signals|
        ensures h.signals[k].date == bar.time && h.signals[k].symbol == bar.ticker <==> k == i
      {
        if k < i {
          assert Key(h.stream[k]) != Key(h.stream[i]);
        } else if k > i {
          assert Key(h.stream[i]) != Key(h.stream[k]);
        }
      }
      LookupSingle(h.signals, bar.time, bar.ticker, i);
    }
  }
}
