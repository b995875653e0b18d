# Daily-bar backtester core, modelled in Dafny

This project models the core of a daily-bar backtester written in Python
on top of pandas. The model has three parts:

- **The daily CSV bar price handler** (`YahooDailyCsvBarPriceHandler`).
  It subscribes tickers and keeps each one's latest close, adjusted close
  and timestamp in a price cache. It merges every ticker's bars into one
  stream sorted by (day, ticker) and cut to an optional date window. It
  builds a signal table from that stream and attaches the matching signal
  rows to every bar event it emits.
- **The technical-analysis strategy** (`TecnicalAnalysisStrategy`). It
  sets the trailing stop to 0.9 × close and raises the buy/sell flags when
  price or SMA crosses a Bollinger band compared with the row two places
  earlier. It also holds the wrappers `analyze_ticker`,
  `get_historical_signals` and `get_signal`.
- **The bands-cross strategy** (`MovingAverageCrossStrategy` in the
  bands-cross example). It is a FLAT/LONG state machine for one ticker. It
  opens on buy and closes on sell, on a downward SMA cross through the
  middle band, or on a trailing stop gated by ADX > 10.

Modules:

| file | module | contents |
|---|---|---|
| `common.dfy` | `Common` | days, tickers, `Option` (NaN), `Result` (exceptions), Python string order |
| `bar_stream.dfy` | `BarStream` | bars, the (day, ticker) order, concatenation, sorting, left-side binary search, the date window, distinct keys |
| `technical.dfy` | `Technical` | indicator rows, `shift(2)`, the buy/sell rules, the strategy's table operations |
| `price_handler.dfy` | `PriceHandler` | subscription and price cache, signal table and lookup, bar events, `stream_next`, the constructor as written and as intended |
| `bands_strategy.dfy` | `BandsStrategy` | the FLAT/LONG machine, its exit rules, runs over event sequences |

Modelling choices:

- A pandas NaN is `None` in an `Option<real>` cell. Every comparison with
  `None` is false, as in pandas.
- `shift(2)` gives `None` for rows 0 and 1.
- Exceptions that abort an operation are the `Err` side of a `Result`.
- The events queue becomes the returned sequence of events or intents.
- The indicator library (ADX, SMA, Bollinger bands) is a parameter
  `engine`. It maps a price table to one indicator row per price row, or
  fails.
- CSV reading and `PriceParser.parse` happen before the model starts. A
  readable file is a sequence of already parsed rows, in a map keyed by
  ticker. A ticker without a file is absent from that map.

How the code behaves at the points where a reader might expect otherwise:

- `searchsorted` runs on the frame sorted by day only, before the
  (day, ticker) sort. Both frames list the same days in the same
  non-decreasing order, so the model searches the final frame.
- The date window keeps `start <= day < end`. The end bound is exclusive
  because `searchsorted` is left-sided and the slice is positional.
- The trend-cross exit compares strictly (`sma < middle` now,
  `sma > middle` one row earlier). It reads the last two rows of the
  whole history and needs more than two rows in it; the entry day plays
  no part.
- `sort_index()` at line 70 of `yahoo_daily_csv_bar.py` sorts by day
  with pandas' default quicksort, which is not stable. The two-column
  `sort_values` at line 81 is stable, so bars with the same (day, ticker)
  key keep the order `sort_index()` left them in, and no order among them
  is fixed. The model fixes one sort: insertion sort, which yields the
  unique sorted permutation. Independence from the order in which tables
  are concatenated is proved for inputs where the (day, ticker) key
  determines the bar (`BarStream.MergeIgnoresTableOrder`).
- The lookup can match several signal rows. The event then carries all
  of them in table order, and the strategy acts on the first; the handler
  raises nothing for it. A lookup with no match makes the strategy raise
  (`MissingSignal`). With per-file unique days, exactly one row matches
  (`PriceHandler.AttachmentExactlyOnce`).
- One signal table is computed over the whole merged, multi-ticker
  stream. `shift(2)` therefore compares a row with the row two positions
  earlier in the merged stream, which can belong to another ticker.
- If indicators cannot be computed, the analysis is an empty frame.
  `self.signals['buy']` then raises, so construction fails
  (`NoSignalColumns`).
- An empty CSV file raises at `iloc[0]`, while a missing file only
  prints a message and leaves the ticker unsubscribed.

## Model

| member | source | states |
|---|---|---|
| BarStream.SortBars | qstrader/price_handler/yahoo_daily_csv_bar.py:80-81 | the merged frame is sorted by (day, ticker) and is a permutation of the concatenated bars |
| BarStream.SortedUnique | qstrader/price_handler/yahoo_daily_csv_bar.py:80-81 | two sorted permutations of the same bars are equal when the (day, ticker) key determines the bar |
| BarStream.ConcatPermutation | qstrader/price_handler/yahoo_daily_csv_bar.py:70 | concatenating the same tables in another order gives the same multiset of bars |
| BarStream.MergeIgnoresTableOrder | qstrader/price_handler/yahoo_daily_csv_bar.py:70-81 | the sorted merge does not depend on the order of the per-ticker tables |
| BarStream.LeftIndex | qstrader/price_handler/yahoo_daily_csv_bar.py:73-76 | the left insertion point of a day: every earlier bar is before the day and the bar at the point is not |
| BarStream.SearchSorted | qstrader/price_handler/yahoo_daily_csv_bar.py:73-76 | the binary search on a day-sorted sequence returns exactly the left insertion point |
| BarStream.WindowIsSelect | qstrader/price_handler/yahoo_daily_csv_bar.py:82-89 | on a day-sorted sequence the positional slice between the two insertion points is exactly the bars with start <= day < end, an absent bound leaving that side open |
| BarStream.Merge | qstrader/price_handler/yahoo_daily_csv_bar.py:61-89 | the merged stream is sorted and holds every in-window input bar as often as it occurs and nothing else; without bounds it is a permutation of the input |
| BarStream.DistinctKeysSubMultiset | qstrader/price_handler/yahoo_daily_csv_bar.py:70-89 | reordering or dropping bars keeps (day, ticker) keys pairwise distinct |
| BarStream.MergeKeepsDistinctKeys | qstrader/price_handler/yahoo_daily_csv_bar.py:61-89 | if no two input bars share a key, no two merged bars do |
| Technical.PopulateIndicators | strategy/tecnical/tecnical_strategy.py:187 | each row keeps its prices and indicator cells, has no flags yet, and its trailing stop is nine tenths of its close |
| Technical.PopulateBuyTrend | strategy/tecnical/tecnical_strategy.py:191-214 | buy becomes 1 exactly on the rows whose close or SMA crosses up through a band against the row two earlier; every other cell and every other row is unchanged |
| Technical.PopulateSellTrend | strategy/tecnical/tecnical_strategy.py:216-233 | sell becomes 1 exactly on the rows whose close crosses down through the middle or lower band against the row two earlier; nothing else changes |
| Technical.AnalyzeTicker | strategy/tecnical/tecnical_strategy.py:235-244 | row i has buy = 1 iff i >= 2 and the buy rule holds between rows i and i-2, and missing otherwise; the same for sell |
| Technical.MiddleClausesExclusive | strategy/tecnical/tecnical_strategy.py:201-226 | no row crosses the middle band both upwards (buy) and downwards (sell) |
| Technical.GetHistoricalSignals | strategy/tecnical/tecnical_strategy.py:272-291 | the table is empty iff the history is empty or the analysis fails; otherwise it is the analysed history, row for row |
| Technical.GetSignal | strategy/tecnical/tecnical_strategy.py:246-270 | (false, false) on an empty analysis; buy iff the history has three or more rows and the last row's buy rule holds against the row two before it; sell likewise |
| PriceHandler.TagRows | qstrader/price_handler/yahoo_daily_csv_bar.py:52-59 | a file's rows become bars of that ticker, one per row, and dropping the ticker gives back the row: day, open, high, low, close, volume and adjusted close |
| PriceHandler.Subscribe | qstrader/price_handler/yahoo_daily_csv_bar.py:91-119 | no-op for a subscribed ticker or a missing file; an empty file raises; otherwise the cache entry comes from the first row, no other entry changes, and the table is appended |
| PriceHandler.SubscribeAll | qstrader/price_handler/yahoo_daily_csv_bar.py:34-36 | the loop raises iff some listed ticker not yet cached has an empty file, and only `EmptyPriceFile`; otherwise the cache gains exactly the listed tickers with a file, old entries keep their values, and every cached ticker keeps a table and its first-row entry |
| PriceHandler.InitialSubscriptions | qstrader/price_handler/yahoo_daily_csv_bar.py:32-36 | from an empty handler the loop caches exactly the listed tickers with a file, each from its file's first row and with its file as its one table; no table is loaded iff no listed ticker has a file |
| PriceHandler.TablesHaveDistinctKeys | qstrader/price_handler/yahoo_daily_csv_bar.py:52-70 | tables of different tickers loaded from files without repeated days concatenate to bars with distinct (day, ticker) keys |
| PriceHandler.FillSignals | qstrader/price_handler/yahoo_daily_csv_bar.py:211-213 | missing buy, sell and SMA become 0; present values and all other columns are kept |
| PriceHandler.Lookup | qstrader/price_handler/yahoo_daily_csv_bar.py:132 | the lookup returns only signal rows with the bar's day and ticker, and every such row |
| PriceHandler.LookupCounts | qstrader/price_handler/yahoo_daily_csv_bar.py:132 | each matching row occurs in the lookup as often as in the table, every other row not at all |
| PriceHandler.LookupFirst | qstrader/price_handler/yahoo_daily_csv_bar.py:132 | the lookup keeps table order: its first row is the table's first row with the key |
| PriceHandler.LookupSingle | qstrader/price_handler/yahoo_daily_csv_bar.py:132 | when exactly one row has the key, the lookup returns exactly that row |
| PriceHandler.CreateEvent | qstrader/price_handler/yahoo_daily_csv_bar.py:121-138 | the event carries the bar's ticker, day and prices, a period of 86400 seconds, and the lookup of the bar's key: only matching rows, all of them, the table's first matching row first |
| PriceHandler.StoreEvent | qstrader/price_handler/yahoo_daily_csv_bar.py:160-162 | the event's ticker gets the event's close, adjusted close and time; no other entry changes |
| PriceHandler.StreamNext | qstrader/price_handler/yahoo_daily_csv_bar.py:164-181 | an exhausted stream stops the backtest and emits nothing; otherwise one event for the next bar, that ticker's cache updated, the stream advanced |
| PriceHandler.Replay | qstrader/price_handler/yahoo_daily_csv_bar.py:164-181 | repeated pulls emit one event per remaining bar, in stream order, and stop the backtest |
| PriceHandler.LastOf | qstrader/price_handler/yahoo_daily_csv_bar.py:160-162 | the last bar of a ticker in the stream: absent iff the ticker has no bar, otherwise the bar with no later bar of that ticker |
| PriceHandler.ReplayCache | qstrader/price_handler/yahoo_daily_csv_bar.py:160-162 | after the replay every ticker is still cached and holds its last streamed bar's close, adjusted close and day, or its old entry if none was streamed |
| PriceHandler.PriceTable | qstrader/price_handler/yahoo_daily_csv_bar.py:184-208 | one price row per streamed bar, with the bar's day, ticker, open, high, low, close and volume |
| PriceHandler.SetSignals | qstrader/price_handler/yahoo_daily_csv_bar.py:183-214 | construction fails with `NoSignalColumns` iff the analysis is empty; otherwise the signal table is the filled analysis of the stream's price table, row i belongs to streamed bar i and the lookup for bar i finds it |
| PriceHandler.SignalTableRows | qstrader/price_handler/yahoo_daily_csv_bar.py:183-214 | signal row i has bar i's day, ticker and close, a trailing stop of nine tenths of it and the engine's bands and ADX; buy (sell) is 1 iff i >= 2 and the buy (sell) rule holds between bars i and i-2, else 0 |
| PriceHandler.Build | qstrader/price_handler/yahoo_daily_csv_bar.py:39-40 | after subscription: the stream is the merged window of the loaded bars, every streamed bar's ticker is cached, the bounds are kept, and the signal table is the filled analysis of the stream with row i for bar i |
| PriceHandler.Construct | qstrader/price_handler/yahoo_daily_csv_bar.py:18-40 | raises `EmptyPriceFile` iff a listed ticker has an empty file, `NothingToConcatenate` iff otherwise no listed ticker has a file, `NoSignalColumns` iff otherwise the analysis of the window is empty; a constructed handler caches exactly the listed tickers with a file, loaded from those files, streams exactly the merged window of their bars, and holds the filled analysis of it as its signal table |
| PriceHandler.AttachmentExactlyOnce | qstrader/price_handler/yahoo_daily_csv_bar.py:121-138 | when no file repeats a day, every bar event of the constructed handler carries exactly one signal row, the one computed from its bar |
| PriceHandler.SubscribeTicker | qstrader/price_handler/yahoo_daily_csv_bar.py:91-119 | a no-op for a subscribed ticker or one without a file; raises `EmptyPriceFile` iff the file is empty; otherwise the ticker is cached from its first row and its table appended, and nothing but the cache and the tables changes |
| PriceHandler.MergeSortTickerData | qstrader/price_handler/yahoo_daily_csv_bar.py:61-89 | the merge as written yields the intended rows but returns a frame only when both bounds are given |
| PriceHandler.ConstructAsWritten | qstrader/price_handler/yahoo_daily_csv_bar.py:39-40 | the constructor as written agrees with the intended one when both bounds are given and fails whenever a bound is missing |
| PriceHandler.AsWrittenRejectsUnboundedRun | qstrader/price_handler/yahoo_daily_csv_bar.py:82-87 | one ticker with one row and no bounds: the constructor as written raises, the intended one streams that bar |
| PriceHandler.ConstructStreamsWindow | qstrader/price_handler/yahoo_daily_csv_bar.py:82-89 | the intended constructor succeeds for every bound combination once loading and analysis succeed and the window is not empty |
| BandsStrategy.Init | examples/bands_cross_backtest.py:24-43 | the strategy starts flat, with no entry day and an empty history |
| BandsStrategy.RowsOf | examples/bands_cross_backtest.py:51 | the event's signal rows of the strategy's own ticker and no others; when the first row is the ticker's, it comes first |
| BandsStrategy.RowsOfCounts | examples/bands_cross_backtest.py:51 | every row of the ticker is kept as often as the event carries it, every other row not at all |
| BandsStrategy.RowsOfFirst | examples/bands_cross_backtest.py:51 | the filter keeps order: its first row, the one the strategy reads, is the event's first row of the ticker |
| BandsStrategy.TrailingHigh | examples/bands_cross_backtest.py:68-70 | the highest trailing stop among history rows dated on or after entry, missing iff there is none |
| BandsStrategy.ExitRule | examples/bands_cross_backtest.py:54-72 | only an open position exits; the trend cross is the reason iff the position is open and the cross fires; otherwise the trailing stop fires iff some row since entry has a trailing stop above the current close and ADX > 10 |
| BandsStrategy.Step | examples/bands_cross_backtest.py:45-95 | other events change nothing; a bar appends its signal rows; an intent is emitted iff the position flips, BOT on buy when flat, SLD on sell or exit when open, for the base quantity |
| BandsStrategy.Run | examples/bands_cross_backtest.py:45-95 | over any event sequence the intents alternate BOT/SLD and the final position is the start position flipped once per intent |
| BandsStrategy.FlatWithoutBuys | examples/bands_cross_backtest.py:76-95 | a flat strategy that never sees buy = 1 stays flat and emits nothing |
| BandsStrategy.FirstBuyOpens | examples/bands_cross_backtest.py:76-85 | from flat, the first buy = 1 emits exactly one BOT and sets the entry day to that row's date |
| BandsStrategy.EventSignalFollowsRules | examples/bands_cross_backtest.py:51-87 | with per-file unique days, the row the strategy reads from the i-th bar event of a constructed handler is signal row i, whose buy (sell) flag is 1 iff the buy (sell) rule holds between streamed bars i and i-2 |

## Left out

- CSV reading (`_open_ticker_price_csv`) and `PriceParser.parse` are left out. Parsed rows are inputs, and a missing file is a ticker absent from the file map.
- The indicator computations in `populate_indicators` (ADX, SMA, Bollinger bands and the commented-out alternatives) come from a foreign library. They are the `engine` parameter.
- `calc_adj_returns` and the adjusted-return history (`yahoo_daily_csv_bar.py` lines 41-43 and 149-159) are left out. They are floating-point divisions that no modelled decision reads.
- Floating point is left out. Prices in the signal table are exact reals, and 0.9 is the exact rational nine tenths.
- PriceHandler.PriceTable: the source fills the price table with the unparsed CSV floats, while bars carry parsed integers. The model uses the bar's integers as reals, so one unit runs through the whole model. Only values within the table are compared with each other.
- PriceHandler.CreateEvent: the trailing comma at source line 131 makes `volume` a one-element tuple. The model carries the integer.
- The events queue, `print` diagnostics and the plotting comments are left out. Output is returned as sequences.
- The `signals` frame filtered to `'AAPL'` at source line 216 is left out. It is computed and never used.
- `expired_not_profit` is left out. Its only call is commented out.
- `MovingAverageCrossStrategy`'s window sizes, deques, price frame and bar counter are left out. The source never reads them.
- `TradingSession`, the `run` function and the `__main__` block of the example are left out. They are wiring and I/O.
- Pandas iterator mechanics are left out. A handler's remaining stream is the sequence of bars not yet pulled.
- BarStream.MergeIgnoresTableOrder: proved only when no two different bars share a (day, ticker) key. With duplicate keys, the unstable `sort_index()` at line 70 fixes no order among them.
- BarStream.SortBars: fixes the order of bars with equal keys by insertion sort. The source keeps the order `sort_index()` left them in, which may differ.

## Findings

| source | as written | input that shows it | evidently intended | confidence | as-written member | corrected member |
|---|---|---|---|---|---|---|
| qstrader/price_handler/yahoo_daily_csv_bar.py:82-87 | three of the four branches of `_merge_sort_ticker_data` return `df.iterrows()`, and `_set_signals_from_price` (line 185) calls `.iterrows()` on the result, which a row iterator does not have | any run with `start_date=None` or `end_date=None`, e.g. one ticker with one CSV row and no bounds | every branch returns the (sliced) frame, which line 229 turns into the row iterator | high; not executed | PriceHandler.AsWrittenRejectsUnboundedRun | PriceHandler.Construct |
